/** Recalls whose context exceeds its token budget by the most it can: real memories, one for each rendered block. */
module Overshoot {
  import opened Seqs
  import opened Text
  import opened Models
  import opened Corpus
  import opened Ranking
  import opened Budget
  import opened Render
  import opened Assembler
  import Grouping
  import Policy
  import ThreadScope
  import StoreModel
  import StoreLaws
  import Recall

  const SCOPE := Namespace("abc", "d")

  function As(n: nat): string {
    seq(n, _ => 'a')
  }

  // The memory titled by 4 * i letters.
  function Numbered(i: nat): Record {
    Record(SCOPE, As(4 * i), "b", Source("doc", "spec", None), "fact", [], [], 1.0, "active", As(i), "t", "t", None, None)
  }

  function Memories(k: nat): seq<Record> {
    seq(k, i requires 0 <= i => Numbered(i + 1))
  }

  // The limits and fence are multiples of four, as the defaults are, and words without a meaning to them
  // are left alone by both expressions.
  ghost predicate Ordinary(look: Look) {
    && look.maxTitle > 0 && look.maxTitle % 4 == 0 && look.maxBody > 0 && |look.fence| % 4 == 0
    && LeavesAlone(look, "b") && forall n: nat :: LeavesAlone(look, As(n))
  }

  predicate LeavesAlone(look: Look, s: string) {
    !look.forges(s) && look.marked(s) == s
  }

  // ----- How they are rendered -----

  predicate Word(s: string) {
    s != "" && forall i :: 0 <= i < |s| ==> 'a' <= s[i] <= 'z'
  }

  lemma {:induction false} OneWordOneLine(s: string, line: string)
    requires forall i :: 0 <= i < |s| ==> 'a' <= s[i] <= 'z'
    requires line + s != ""
    ensures SplitLines(s, line) == [line + s]
  {
    if s == "" {
      assert line + s == line;
    } else {
      OneWordOneLine(s[1..], line + [s[0]]);
      assert line + [s[0]] + s[1..] == line + s;
    }
  }

  lemma CleanAlready(look: Look, s: string)
    requires Word(s) && LeavesAlone(look, s)
    ensures CleanLine(look)(s) == s && Trimmed(s)
  {
    assert !IsSpace(s[0]) && !IsSpace(s[|s| - 1]);
    assert TrimRight(s) == s;
  }

  lemma WordIsPrintable(s: string)
    requires Word(s)
    ensures Filter(Printable(), s) == s && SplitLines(s, "") == [s]
  {
    FilterAll(Printable(), s);
    OneWordOneLine(s, "");
    assert "" + s == s;
  }

  lemma OnlyLine(s: string)
    requires Trimmed(s)
    ensures Strip(Join("\n", [s])) == s
  {
  }

  lemma WordsStay(look: Look, s: string)
    requires Word(s) && LeavesAlone(look, s)
    ensures Sanitize(look, s) == s
  {
    WordIsPrintable(s);
    CleanAlready(look, s);
    OnlyLine(s);
    assert Map(CleanLine(look), [s]) == [s];
  }

  lemma TitleIsWhole(look: Look, i: nat)
    requires Ordinary(look) && i > 0
    ensures |Title(look, Numbered(i))| % 4 == 0
  {
    assert LeavesAlone(look, As(4 * i));
    WordsStay(look, As(4 * i));
    ClampIsWhole(4 * i, look.maxTitle);
  }

  // A text of letters is cut to the limit exactly.
  lemma ClampIsWhole(n: nat, limit: int)
    requires limit > 0 && limit % 4 == 0 && n % 4 == 0
    ensures |Clamp(As(n), limit)| % 4 == 0
  {
    if n > limit {
      LettersStay(As(n)[..limit - 1]);
    }
  }

  lemma LettersStay(s: string)
    requires forall i :: 0 <= i < |s| ==> s[i] == 'a'
    ensures TrimRight(s) == s
  {
    assert Trimmed(s);
  }

  lemma BlockLengthIs(look: Look, m: Record)
    requires m.tags == [] && m.status == "active"
    ensures |RenderMemory(look, m)| ==
            |Title(look, m)| + |look.fence| + |Quoted(look.fence, Body(look, m))| + |m.source.kind| + |m.source.ref| + 20
  {
    assert |SourcePart(m.source)| == 12 + |m.source.kind| + |m.source.ref|;
    assert |TitleLine(look, m)| == |Title(look, m)| + 7;
  }

  lemma ShortBody(look: Look, i: nat)
    requires Ordinary(look)
    ensures |Quoted(look.fence, Body(look, Numbered(i)))| == 1
  {
    WordsStay(look, "b");
    assert "b"[..0] == "";
  }

  lemma BlockIsWhole(look: Look, i: nat)
    requires Ordinary(look) && i > 0
    ensures Whole(RenderMemory(look, Numbered(i)))
  {
    TitleIsWhole(look, i);
    PlainBlockLength(look, i);
    WholeByParts(RenderMemory(look, Numbered(i)), |Title(look, Numbered(i))|, |look.fence|);
  }

  lemma PlainBlockLength(look: Look, i: nat)
    requires Ordinary(look)
    ensures |RenderMemory(look, Numbered(i))| == |Title(look, Numbered(i))| + |look.fence| + 28
  {
    BlockLengthIs(look, Numbered(i));
    ShortBody(look, i);
  }

  lemma WholeByParts(s: string, a: nat, b: nat)
    requires |s| == a + b + 28 && a % 4 == 0 && b % 4 == 0
    ensures Whole(s)
  {
  }

  // ----- They are memories, and unlike each other -----

  lemma NumberedIsWellFormed(i: nat)
    requires i > 0
    ensures WellFormed(Numbered(i)) && HasId(Numbered(i))
  {
    assert Trimmed(As(4 * i));
  }

  lemma {:induction false} LettersAreOneWord(n: nat, rest: string, word: string)
    ensures Words(As(n) + rest, word) == Words(rest, word + As(n))
  {
    if n == 0 {
      assert As(n) + rest == rest && word + As(n) == word;
    } else {
      assert (As(n) + rest)[1..] == As(n - 1) + rest;
      LettersAreOneWord(n - 1, rest, word + ['a']);
      assert word + ['a'] + As(n - 1) == word + As(n);
    }
  }

  lemma NumberedTokens(i: nat)
    requires i > 0
    ensures TokenSet(Numbered(i)) == {As(4 * i), "b"}
  {
    var text := As(4 * i) + " " + "b";
    assert Lower(text) == text == As(4 * i) + " b";
    LettersAreOneWord(4 * i, " b", "");
    assert "" + As(4 * i) == As(4 * i);
    assert " b"[1..] == "b" && "b"[1..] == "" && "" + "b" == "b";
    assert Words(" b", As(4 * i)) == [As(4 * i), "b"];
  }

  lemma OneThirdAlike(i: nat, j: nat)
    requires 0 < i && 0 < j && i != j
    ensures Grouping.Jaccard(Numbered(i), Numbered(j)) == 1.0 / 3.0
  {
    NumberedTokens(i);
    NumberedTokens(j);
    var a, b := As(4 * i), As(4 * j);
    assert |a| != |b| && |a| > 1 && |b| > 1;
    assert {a, "b"} * {b, "b"} == {"b"};
    assert {a, "b"} + {b, "b"} == {a, b, "b"};
    assert |{"b"}| == 1 && |{a, b, "b"}| == 3;
  }

  // ----- The bound is attained -----

  lemma MemoriesDiffer(k: nat)
    ensures NoDup(Memories(k))
  {
    forall i, j | 0 <= i < j < k ensures Memories(k)[i] != Memories(k)[j] {
      assert |Numbered(i + 1).id| != |Numbered(j + 1).id|;
    }
  }

  lemma RankedKeepsAll(num: Numerics, cfg: Settings, ms: seq<Record>)
    ensures Permuted(Ranked(num, cfg, ms, ""), ms)
  {
    assert Tokenize("") == [];
    RankMembers(num, Effective(cfg), ms, "");
    RankMembers(num, DEFAULT_WEIGHTS, ms, "");
  }

  lemma {:induction false} NothingToRemove(like: (Record, Record) -> bool, ms: seq<Record>)
    requires forall i, j :: 0 <= i < j < |ms| ==> !like(ms[j], ms[i])
    ensures Grouping.Deduped(like, ms) == ms
  {
    if ms != [] {
      NothingToRemove(like, ms[..|ms| - 1]);
    }
  }

  lemma MemberIsNumbered(k: nat, m: Record)
    requires m in Memories(k)
    ensures exists i: nat :: 0 < i <= k && m == Numbered(i)
  {
    var j :| 0 <= j < k && Memories(k)[j] == m;
    assert m == Numbered(j + 1);
  }

  // All of them are selected, in some order: none is removed as a near-duplicate or capped.
  lemma AllSelected(num: Numerics, cfg: Settings, k: nat)
    requires k <= cfg.maxMemories && cfg.ranking.dedupeThreshold > 1.0 / 3.0
    ensures Permuted(Selected(num, cfg, Memories(k), ""), Memories(k))
  {
    var like, ranked := Grouping.AlikeAt(cfg.ranking.dedupeThreshold), Ranked(num, cfg, Memories(k), "");
    RankedKeepsAll(num, cfg, Memories(k));
    PermutedMembers(ranked, Memories(k));
    MemoriesDiffer(k);
    NoDupPermuted(Memories(k), ranked);
    forall i, j | 0 <= i < j < |ranked| ensures !like(ranked[j], ranked[i]) {
      assert ranked[i] in ranked && ranked[j] in ranked;
      MemberIsNumbered(k, ranked[i]);
      MemberIsNumbered(k, ranked[j]);
      var x: nat :| 0 < x <= k && ranked[i] == Numbered(x);
      var y: nat :| 0 < y <= k && ranked[j] == Numbered(y);
      OneThirdAlike(y, x);
    }
    NothingToRemove(like, ranked);
  }

  // What k such memories take of a budget, header included.
  function Needed(look: Look, k: nat): int {
    EstimateTokens(Header(SCOPE)) + Sum(Tokens, Map(Renderer(look), Memories(k)))
  }

  // For every k, mode and ranking, k different well-formed memories are all selected and all rendered in a
  // budget that the estimates of header and blocks fill exactly, and the context exceeds that budget by a
  // quarter of k, rounded up.
  lemma BoundAttained(num: Numerics, cfg: Settings, look: Look, k: nat)
    requires 0 < k <= cfg.maxMemories && cfg.ranking.dedupeThreshold > 1.0 / 3.0 && Ordinary(look)
    requires cfg.maxTokens == Some(Needed(look, k))
    requires cfg.maxChars >= Sum(Length, Map(Renderer(look), Memories(k)))
    ensures NoDup(Memories(k)) && forall m :: m in Memories(k) ==> WellFormed(m) && m.namespace == SCOPE
    ensures var selected := Selected(num, cfg, Memories(k), "");
            var blocks := Map(Renderer(look), selected);
            && Permuted(selected, Memories(k))
            && RenderedCount(LimitsOf(cfg), Header(SCOPE), blocks) == k
            && EstimateTokens(Assembled(cfg, SCOPE, blocks)) == cfg.maxTokens.value + (k + 3) / 4
  {
    MemoriesDiffer(k);
    AllSelected(num, cfg, k);
    forall m | m in Memories(k) ensures WellFormed(m) && m.namespace == SCOPE {
      MemberIsNumbered(k, m);
      var i: nat :| 0 < i <= k && m == Numbered(i);
      NumberedIsWellFormed(i);
    }
    WholeMemoriesExceed(cfg, look, k, Selected(num, cfg, Memories(k), ""));
  }

  lemma BlockOfMember(look: Look, k: nat, m: Record)
    requires Ordinary(look) && m in Memories(k)
    ensures Whole(RenderMemory(look, m)) && Ends(RenderMemory(look, m))
  {
    MemberIsNumbered(k, m);
    var i: nat :| 0 < i <= k && m == Numbered(i);
    BlockIsWhole(look, i);
    RenderedEnds(look, m);
  }

  lemma BlocksOfMembers(look: Look, k: nat, selected: seq<Record>)
    requires Ordinary(look) && forall m :: m in selected ==> m in Memories(k)
    ensures var blocks := Map(Renderer(look), selected);
            forall i :: 0 <= i < |blocks| ==> Whole(blocks[i]) && Ends(blocks[i])
  {
    forall i | 0 <= i < |selected| ensures Whole(Renderer(look)(selected[i])) && Ends(Renderer(look)(selected[i])) {
      BlockOfMember(look, k, selected[i]);
    }
  }

  lemma SameTotals(look: Look, k: nat, selected: seq<Record>)
    requires Permuted(selected, Memories(k))
    ensures EstimateTokens(Header(SCOPE)) + Sum(Tokens, Map(Renderer(look), selected)) == Needed(look, k)
    ensures Sum(Length, Map(Renderer(look), selected)) == Sum(Length, Map(Renderer(look), Memories(k)))
  {
    var blocks, given := Map(Renderer(look), selected), Map(Renderer(look), Memories(k));
    MapPermuted(Renderer(look), selected, Memories(k));
    SumPermuted(Tokens, blocks, given);
    SumPermuted(Length, blocks, given);
  }

  lemma WholeMemoriesExceed(cfg: Settings, look: Look, k: nat, selected: seq<Record>)
    requires k > 0 && Ordinary(look) && Permuted(selected, Memories(k))
    requires cfg.maxTokens == Some(Needed(look, k))
    requires cfg.maxChars >= Sum(Length, Map(Renderer(look), Memories(k)))
    ensures var blocks := Map(Renderer(look), selected);
            && RenderedCount(LimitsOf(cfg), Header(SCOPE), blocks) == k
            && EstimateTokens(Assembled(cfg, SCOPE, blocks)) == cfg.maxTokens.value + (k + 3) / 4
  {
    var blocks := Map(Renderer(look), selected);
    PermutedMembers(selected, Memories(k));
    SameTotals(look, k, selected);
    BlocksOfMembers(look, k, selected);
    HeaderIsWhole();
    WholeBlocksExceed(cfg, SCOPE, blocks);
  }

  lemma HeaderIsWhole()
    ensures Whole(Header(SCOPE))
  {
    assert |Header(SCOPE)| == 24;
  }

  lemma WholeBlocksExceed(cfg: Settings, ns: Namespace, blocks: seq<string>)
    requires blocks != [] && Whole(Header(ns))
    requires forall i :: 0 <= i < |blocks| ==> Whole(blocks[i]) && Ends(blocks[i])
    requires cfg.maxTokens == Some(EstimateTokens(Header(ns)) + Sum(Tokens, blocks))
    requires cfg.maxChars >= Sum(Length, blocks)
    ensures RenderedCount(LimitsOf(cfg), Header(ns), blocks) == |blocks|
    ensures EstimateTokens(Assembled(cfg, ns, blocks)) == cfg.maxTokens.value + (|blocks| + 3) / 4
  {
    TokensNonNegative(blocks);
    HeaderBegins(ns);
    WholeLinesExceed(LimitsOf(cfg), Header(ns), blocks);
  }

  // So does recall from every store that shows these memories and no others: its context exceeds the budget.
  lemma RecallOvershoots(policy: Policy.Config, num: Numerics, cfg: Settings, look: Look, s: StoreModel.State, k: nat,
                         clock: string)
    requires StoreModel.Inv(s)
    requires var q := Recall.CandidateRequest(cfg, SCOPE, "");
             !StoreLaws.QueryRefused(s, q) && Filter(StoreLaws.Answers(q, clock), s.rows) == Memories(k)
    requires 0 < k <= cfg.maxMemories && cfg.ranking.dedupeThreshold > 1.0 / 3.0 && Ordinary(look)
    requires cfg.maxTokens == Some(Needed(look, k))
    requires cfg.maxChars >= Sum(Length, Map(Renderer(look), Memories(k)))
    ensures var outcome := Recall.RecallFrom(policy, num, cfg, Renderer(look), s, SCOPE, "", clock);
            && outcome.Recollection? && |outcome.matches| == k
            && EstimateTokens(outcome.context) == cfg.maxTokens.value + (k + 3) / 4
  {
    Recall.RecallIs(policy, num, cfg, Renderer(look), s, SCOPE, "", clock, Memories(k));
    BoundAttained(num, cfg, look, k);
    PermutedMembers(Selected(num, cfg, Memories(k), ""), Memories(k));
  }

  // ----- A run that stores them -----

  // The gate has room for the longest title and finds nothing in the words used.
  ghost predicate Permits(policy: Policy.Config, k: nat) {
    && policy.piiMode != Policy.RedactPii
    && (policy.maxTitleChars == 0 || 4 * k <= policy.maxTitleChars) && policy.maxBodyChars >= 0 && policy.maxTags >= 0
    && Unsuspicious(policy, "b") && Unsuspicious(policy, "spec") && forall n: nat :: Unsuspicious(policy, As(n))
  }

  predicate Unsuspicious(policy: Policy.Config, s: string) {
    !policy.secret(s) && !policy.pii(s)
  }

  const UNLIMITED := Policy.Config(false, false, Policy.IgnorePii, 0, 0, 0, 0,
                                   (s: string) => false, (s: string) => false, (s: string) => s)

  lemma UnlimitedPermits(k: nat)
    ensures Permits(UNLIMITED, k) && Policy.Lawful(UNLIMITED)
  {
    assert forall n: nat :: Unsuspicious(UNLIMITED, As(n));
  }

  lemma NumberedIsAccepted(policy: Policy.Config, k: nat, i: nat)
    requires Permits(policy, k) && 0 < i <= k
    ensures Policy.Review(Numbered(i), policy) == Policy.Accepted(Numbered(i))
  {
    var m := Numbered(i);
    assert Trimmed("spec");
    assert Unsuspicious(policy, As(4 * i)) && Unsuspicious(policy, As(0)) && As(0) == "";
    assert Policy.ControlledText(m) == [As(4 * i), "b", "spec", "", "", ""];
  }

  function AddsOf(k: nat): seq<StoreModel.Op> {
    seq(k, i requires 0 <= i => StoreModel.Add(Numbered(i + 1), As(i + 1), "t"))
  }

  lemma AddsDraw(k: nat, id: string)
    requires id in StoreModel.Drawn(AddsOf(k))
    ensures |id| <= k
  {
    var op :| op in AddsOf(k) && op.Add? && op.newId == id;
    var i :| 0 <= i < k && AddsOf(k)[i] == op;
  }

  lemma {:induction false} AddsStoreThem(policy: Policy.Config, k: nat, n: nat)
    requires Permits(policy, n) && k <= n
    ensures StoreModel.Legal(AddsOf(k)) && StoreModel.Run(policy, StoreModel.EMPTY, AddsOf(k)).rows == Memories(k)
  {
    if k > 0 {
      AddsStoreThem(policy, k - 1, n);
      NumberedIsAccepted(policy, n, k);
      FreshAdd(k);
      OneMoreAdd(policy, AddsOf(k - 1), k);
      LastNumbered(k);
    }
  }

  lemma LastNumbered(k: nat)
    requires k > 0
    ensures AddsOf(k) == AddsOf(k - 1) + [StoreModel.Add(Numbered(k), As(k), "t")]
    ensures Memories(k) == Memories(k - 1) + [Numbered(k)]
  {
  }

  lemma FreshAdd(k: nat)
    requires k > 0
    ensures StoreModel.FreshOp(StoreModel.Add(Numbered(k), As(k), "t"), StoreModel.Drawn(AddsOf(k - 1)))
  {
    NumberedIsWellFormed(k);
    if As(k) in StoreModel.Drawn(AddsOf(k - 1)) {
      AddsDraw(k - 1, As(k));
    }
  }

  lemma OneMoreAdd(policy: Policy.Config, ops: seq<StoreModel.Op>, k: nat)
    requires k > 0 && Policy.Review(Numbered(k), policy) == Policy.Accepted(Numbered(k))
    requires StoreModel.Legal(ops) && StoreModel.Run(policy, StoreModel.EMPTY, ops).rows == Memories(k - 1)
    requires StoreModel.FreshOp(StoreModel.Add(Numbered(k), As(k), "t"), StoreModel.Drawn(ops))
    ensures StoreModel.Legal(ops + [StoreModel.Add(Numbered(k), As(k), "t")])
    ensures StoreModel.Run(policy, StoreModel.EMPTY, ops + [StoreModel.Add(Numbered(k), As(k), "t")]).rows ==
            Memories(k - 1) + [Numbered(k)]
  {
    var op := StoreModel.Add(Numbered(k), As(k), "t");
    StoreModel.LegalOneMore(ops, op);
    assert (ops + [op])[..|ops|] == ops;
    AddStores(policy, StoreModel.Run(policy, StoreModel.EMPTY, ops), k);
  }

  lemma AddStores(policy: Policy.Config, s: StoreModel.State, k: nat)
    requires k > 0 && Policy.Review(Numbered(k), policy) == Policy.Accepted(Numbered(k)) && s.rows == Memories(k - 1)
    ensures StoreModel.DoAdd(policy, s, Numbered(k), As(k), "t").state.rows == s.rows + [Numbered(k)]
  {
    forall i | 0 <= i < k - 1 ensures StoreModel.Ids(s.rows)[i] != As(k) {
      assert |s.rows[i].id| == i + 1;
    }
  }

  lemma NumberedAnswers(cfg: Settings, i: nat, clock: string)
    requires "active" in cfg.statuses && ThreadScope.NormalizeThread(cfg.thread).Ok?
    ensures StoreLaws.Answers(Recall.CandidateRequest(cfg, SCOPE, ""), clock)(Numbered(i))
  {
    var q, m := Recall.CandidateRequest(cfg, SCOPE, ""), Numbered(i);
    assert m.namespace == q.namespace && m.thread == None && m.expiresAt == None && m.status == "active";
    assert ThreadScope.AdmitsThread(m.thread, q.thread, q.mode) == ThreadScope.Ok(true);
    assert StoreModel.StatusAllows(q, m);
    assert StoreModel.ExpiryAllows(q, clock, m);
    assert StoreModel.Mentions(q)(m);
  }

  // All of them answer a request for the active memories of their namespace.
  lemma AllAnswer(cfg: Settings, k: nat, clock: string)
    requires "active" in cfg.statuses && ThreadScope.NormalizeThread(cfg.thread).Ok?
    ensures var q := Recall.CandidateRequest(cfg, SCOPE, "");
            && (forall m :: m in Memories(k) ==> StoreLaws.Answers(q, clock)(m))
            && Filter(StoreLaws.Answers(q, clock), Memories(k)) == Memories(k)
  {
    var q := Recall.CandidateRequest(cfg, SCOPE, "");
    forall m | m in Memories(k) ensures StoreLaws.Answers(q, clock)(m) {
      MemberIsNumbered(k, m);
      var i: nat :| 0 < i <= k && m == Numbered(i);
      NumberedAnswers(cfg, i, clock);
    }
    FilterAll(StoreLaws.Answers(q, clock), Memories(k));
  }

  // A store to which the k memories were added, one after the other, recalls them in a context that exceeds
  // its budget by a quarter of k, rounded up.
  lemma RunOvershoots(policy: Policy.Config, num: Numerics, cfg: Settings, look: Look, k: nat, clock: string)
    requires Policy.Lawful(policy) && Permits(policy, k)
    requires "active" in cfg.statuses && ThreadScope.NormalizeThread(cfg.thread).Ok?
    requires 0 < k <= cfg.maxMemories && cfg.ranking.dedupeThreshold > 1.0 / 3.0 && Ordinary(look)
    requires cfg.maxTokens == Some(Needed(look, k))
    requires cfg.maxChars >= Sum(Length, Map(Renderer(look), Memories(k)))
    ensures StoreModel.Legal(AddsOf(k))
    ensures var s := StoreModel.Run(policy, StoreModel.EMPTY, AddsOf(k));
            var outcome := Recall.RecallFrom(policy, num, cfg, Renderer(look), s, SCOPE, "", clock);
            && outcome.Recollection? && |outcome.matches| == k
            && EstimateTokens(outcome.context) == cfg.maxTokens.value + (k + 3) / 4
  {
    var s := StoreModel.Run(policy, StoreModel.EMPTY, AddsOf(k));
    AddsStoreThem(policy, k, k);
    StoreLaws.RunKeepsInv(policy, AddsOf(k));
    AllAnswer(cfg, k, clock);
    NotRefused(cfg, s);
    RecallOvershoots(policy, num, cfg, look, s, k, clock);
  }

  lemma NotRefused(cfg: Settings, s: StoreModel.State)
    requires ThreadScope.NormalizeThread(cfg.thread).Ok?
    ensures !StoreLaws.QueryRefused(s, Recall.CandidateRequest(cfg, SCOPE, ""))
  {
  }
}
