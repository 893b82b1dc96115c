/** The context assembler: selecting, filtering, deduplicating and capping memories, and rendering them in a budget. */
module Assembler {
  import opened Seqs
  import opened Text
  import opened Models
  import opened StoreModel
  import opened Corpus
  import opened Ranking
  import opened Retrieval
  import opened Budget
  import opened Render
  import Grouping
  import RetrievalLaws

  datatype Settings = Settings(
    maxMemories: int, maxChars: int, tagBoost: real, maxTokens: Option<int>, dedupe: bool,
    statuses: set<string>, ranking: Weights, thread: Option<string>, mode: Mode)

  // The tag boost overrides the ranking's own tag weight.
  function Effective(cfg: Settings): Weights {
    cfg.ranking.(tag := cfg.tagBoost)
  }

  // ----- Selection -----

  function Relevant(num: Numerics, st: Ranking.Stats, terms: seq<string>): Record -> bool {
    (m: Record) => Lexical(num, st, m, terms) > 0.0 || TagOverlap(m, terms) > 0
  }

  function Ranked(num: Numerics, cfg: Settings, candidates: seq<Record>, query: string): seq<Record> {
    if cfg.mode.Classic? then
      var ranked, terms := Rank(num, Effective(cfg), candidates, query), Tokenize(query);
      if terms != [] then Filter(Relevant(num, Ranking.Collect(candidates), terms), ranked) else ranked
    else RankCandidates(num, candidates, query, cfg.mode)
  }

  function Selected(num: Numerics, cfg: Settings, candidates: seq<Record>, query: string): seq<Record> {
    var ranked := Ranked(num, cfg, candidates, query);
    var distinct := if cfg.dedupe then Grouping.Deduped(Grouping.AlikeAt(cfg.ranking.dedupeThreshold), ranked) else ranked;
    Take(distinct, cfg.maxMemories)
  }

  // The filter, the removal of near-duplicates and the cap also forget the order of the candidates.
  lemma SelectedPermuted(num: Numerics, cfg: Settings, a: seq<Record>, b: seq<Record>, query: string)
    requires Permuted(a, b) && NoDup(Ids(a))
    ensures Selected(num, cfg, a, query) == Selected(num, cfg, b, query)
  {
    if cfg.mode.Classic? {
      RankPermuted(num, Effective(cfg), a, b, query);
      CollectPermuted(a, b);
    } else {
      RetrievalLaws.RetrievalPermuted(num, a, b, query, cfg.mode);
    }
  }

  // A query token occurs in the text, or inside a tag.
  ghost predicate Matches(terms: seq<string>, m: Record) {
    exists t :: t in terms && (t in MemoryTokens(m) || InTags(m)(t) == 1)
  }

  lemma DocumentFrequency(ms: seq<Record>, m: Record, t: string)
    requires m in ms
    ensures var f := FrequencyOf(Ranking.Collect(ms).df, t);
            0 <= f <= Ranking.Collect(ms).n && (t in MemoryTokens(m) ==> f > 0)
  {
    var docs := Map(TokenSet, ms);
    FrequencyCounts(docs, t);
    HoldingBounds(docs, t);
    if t in MemoryTokens(m) {
      var i :| 0 <= i < |ms| && ms[i] == m;
      assert docs[i] == TokenSet(m);
      InAllTokens(docs, i, t);
    }
  }

  lemma {:induction false} InAllTokens(docs: seq<set<string>>, i: nat, t: string)
    requires i < |docs| && t in docs[i]
    ensures t in AllTokens(docs)
  {
    if i < |docs| - 1 {
      InAllTokens(docs[..|docs| - 1], i, t);
    }
  }

  lemma {:induction false} LexicalPositive(num: Numerics, ms: seq<Record>, m: Record, terms: seq<string>)
    requires Lawful(num) && m in ms
    ensures Lexical(num, Ranking.Collect(ms), m, terms) >= 0.0
    ensures Lexical(num, Ranking.Collect(ms), m, terms) > 0.0 <==> exists t :: t in terms && t in MemoryTokens(m)
  {
    if terms != [] {
      var init, t := terms[..|terms| - 1], terms[|terms| - 1];
      assert forall x :: x in terms <==> x in init || x == t;
      LexicalPositive(num, ms, m, init);
      DocumentFrequency(ms, m, t);
      TermWeightSign(num, Ranking.Collect(ms), m, t);
    }
  }

  lemma TermWeightSign(num: Numerics, st: Ranking.Stats, m: Record, t: string)
    requires Lawful(num) && 0 <= FrequencyOf(st.df, t) <= st.n
    ensures var w := TermWeight(num, st, multiset(MemoryTokens(m))[t], t);
            w >= 0.0 && (w > 0.0 <==> t in MemoryTokens(m))
  {
    assert t in MemoryTokens(m) <==> multiset(MemoryTokens(m))[t] > 0;
    WeightSign(num, st.n, FrequencyOf(st.df, t), multiset(MemoryTokens(m))[t]);
  }

  lemma WeightSign(num: Numerics, n: int, f: int, tf: nat)
    requires Lawful(num) && 0 <= f <= n
    ensures tf > 0 ==> tf as real / (tf as real + 1.0) * Idf(num, n, f) > 0.0
  {
    IdfAtLeastOne(num, n, f);
    var part := tf as real / (tf as real + 1.0);
    if tf > 0 {
      assert part > 0.0;
      assert part * Idf(num, n, f) > 0.0;
    }
  }

  lemma {:induction false} OverlapPositive(m: Record, terms: seq<string>)
    ensures TagOverlap(m, terms) >= 0
    ensures TagOverlap(m, terms) > 0 <==> exists t :: t in terms && InTags(m)(t) == 1
  {
    if terms != [] {
      assert terms == terms[..|terms| - 1] + [terms[|terms| - 1]];
      OverlapPositive(m, terms[..|terms| - 1]);
    }
  }

  lemma RankMembers(num: Numerics, w: Weights, ms: seq<Record>, query: string)
    ensures Permuted(Rank(num, w, ms, query), ms)
  {
    var f := KeyBy(num, w, Ranking.Collect(ms), Tokenize(query));
    var keyed := Map(f, ms);
    Sorting.SortPermutes(BestFirst, keyed);
    MapPermuted(MemoryOf, Sorting.Sort(BestFirst, keyed), keyed);
    assert Map(MemoryOf, keyed) == ms;
  }

  // Classic recall returns every candidate that matches the query, and no other; all of them without one.
  lemma ClassicExact(num: Numerics, cfg: Settings, ms: seq<Record>, query: string)
    requires Lawful(num) && cfg.mode.Classic? && NoDup(ms)
    ensures var ranked := Ranked(num, cfg, ms, query);
            && NoDup(ranked)
            && forall m :: m in ranked <==> m in ms && (Tokenize(query) == [] || Matches(Tokenize(query), m))
  {
    var all, terms := Rank(num, Effective(cfg), ms, query), Tokenize(query);
    RankMembers(num, Effective(cfg), ms, query);
    PermutedMembers(all, ms);
    NoDupPermuted(ms, all);
    FilterNoDup(Relevant(num, Ranking.Collect(ms), terms), all);
    forall m | m in ms ensures Relevant(num, Ranking.Collect(ms), terms)(m) <==> Matches(terms, m) {
      LexicalPositive(num, ms, m, terms);
      OverlapPositive(m, terms);
    }
  }

  // What is selected is a prefix of the ranked memories without near-duplicates, within the cap.
  lemma SelectionLaws(num: Numerics, cfg: Settings, candidates: seq<Record>, query: string)
    ensures var selected := Selected(num, cfg, candidates, query);
            && (forall m :: m in selected ==> m in Ranked(num, cfg, candidates, query))
            && (cfg.maxMemories >= 0 ==> |selected| <= cfg.maxMemories)
            && (cfg.dedupe ==> forall i, j :: 0 <= i < j < |selected| ==>
                                 Grouping.Jaccard(selected[j], selected[i]) < cfg.ranking.dedupeThreshold)
  {
    var like, ranked := Grouping.AlikeAt(cfg.ranking.dedupeThreshold), Ranked(num, cfg, candidates, query);
    Grouping.DedupeIsMaximal(like, ranked);
    var selected, kept := Selected(num, cfg, candidates, query), Grouping.Deduped(like, ranked);
    if cfg.dedupe {
      forall i, j | 0 <= i < j < |selected|
        ensures Grouping.Jaccard(selected[j], selected[i]) < cfg.ranking.dedupeThreshold
      {
        assert selected[i] == kept[i] && selected[j] == kept[j];
        assert !like(kept[j], kept[i]);
      }
    }
  }

  // ----- Rendering -----

  function Header(ns: Namespace): string {
    "# Memory context \U{2014} " + ns.AsKey()
  }

  function LimitsOf(cfg: Settings): Limits {
    Limits(Some(cfg.maxChars), cfg.maxTokens)
  }

  // The block of the header and the longest prefix of the memories' blocks that fits both limits.
  function Assembled(cfg: Settings, ns: Namespace, blocks: seq<string>): string {
    if blocks == [] || !Within(cfg.maxTokens, EstimateTokens(Header(ns))) then ""
    else Block(Rendered(LimitsOf(cfg), Header(ns), blocks))
  }

  // The loop stops at the first block that does not fit, and that leaves the longest prefix that does.
  method RenderWithin(cfg: Settings, header: string, render: Record -> string, selected: seq<Record>)
    returns (lines: seq<string>)
    ensures lines == Rendered(LimitsOf(cfg), header, Map(render, selected))
  {
    ghost var blocks := Map(render, selected);
    var charBudget, used := cfg.maxChars, EstimateTokens(header);
    lines := [header];
    for i := 0 to |selected|
      invariant lines == [header] + blocks[..i]
      invariant Rendering(LimitsOf(cfg), header, blocks, i)
      invariant charBudget == cfg.maxChars - Sum(Length, blocks[..i])
      invariant used == EstimateTokens(header) + Sum(Tokens, blocks[..i])
    {
      var block := render(selected[i]);
      RenderOne(LimitsOf(cfg), header, blocks, i);
      if |block| > charBudget || (cfg.maxTokens.Some? && used + EstimateTokens(block) > cfg.maxTokens.value) {
        return;
      }
      lines := lines + [block];
      charBudget, used := charBudget - |block|, used + EstimateTokens(block);
    }
    RenderedAll(LimitsOf(cfg), header, blocks);
  }

  method Assemble(cfg: Settings, render: Record -> string, ns: Namespace, selected: seq<Record>) returns (text: string)
    ensures text == Assembled(cfg, ns, Map(render, selected))
  {
    if selected == [] {
      return "";
    }
    if cfg.maxTokens.Some? && EstimateTokens(Header(ns)) > cfg.maxTokens.value {
      return "";
    }
    var lines := RenderWithin(cfg, Header(ns), render, selected);
    text := Block(lines);
  }

  // ----- The budgets -----

  // The true bounds: with k rendered blocks the token estimate exceeds the budget by at most k / 4,
  // rounded up, and the length exceeds header and character budget by at most k.
  lemma TrueBounds(cfg: Settings, ns: Namespace, blocks: seq<string>)
    ensures var text, k := Assembled(cfg, ns, blocks), RenderedCount(LimitsOf(cfg), Header(ns), blocks);
            && (cfg.maxTokens.Some? ==> text == "" || EstimateTokens(text) <= cfg.maxTokens.value + (k + 3) / 4)
            && |text| <= |Header(ns)| + (if cfg.maxChars >= 0 then cfg.maxChars else 0) + k
  {
    if blocks != [] && Within(cfg.maxTokens, EstimateTokens(Header(ns))) {
      RenderedBounds(LimitsOf(cfg), Header(ns), blocks);
      JoinLength(Rendered(LimitsOf(cfg), Header(ns), blocks));
      if cfg.maxTokens.Some? {
        RenderedEstimate(LimitsOf(cfg), Header(ns), blocks);
      }
    }
  }

  lemma HeaderBegins(ns: Namespace)
    ensures Begins(Header(ns))
  {
    assert Header(ns)[0] == '#';
  }

  // A context with anything in it stays within the token budget exactly when the newlines between its
  // lines, less the white space they end in, fit into what the lines leave of the budget.
  lemma BudgetIff(cfg: Settings, ns: Namespace, blocks: seq<string>)
    requires cfg.maxTokens.Some? && blocks != [] && EstimateTokens(Header(ns)) <= cfg.maxTokens.value
    ensures var lines, k := Rendered(LimitsOf(cfg), Header(ns), blocks), RenderedCount(LimitsOf(cfg), Header(ns), blocks);
            EstimateTokens(Assembled(cfg, ns, blocks)) <= cfg.maxTokens.value <==>
            NewlinesFit(cfg.maxTokens.value, lines, k - TailSpace(lines))
  {
    HeaderBegins(ns);
    RenderedWithinIff(LimitsOf(cfg), Header(ns), blocks);
  }

  lemma BlocksEnd(look: Look, selected: seq<Record>)
    ensures var blocks := Map(Renderer(look), selected);
            forall i :: 0 <= i < |blocks| ==> Ends(blocks[i])
  {
    forall i | 0 <= i < |selected| ensures Ends(Renderer(look)(selected[i])) {
      RenderedEnds(look, selected[i]);
    }
  }

  // For memories as they are rendered, whose blocks never end in white space: exactly when the newlines fit.
  lemma MemoryBudgetIff(cfg: Settings, ns: Namespace, look: Look, selected: seq<Record>)
    requires cfg.maxTokens.Some? && selected != [] && EstimateTokens(Header(ns)) <= cfg.maxTokens.value
    ensures var blocks := Map(Renderer(look), selected);
            var lines, k := Rendered(LimitsOf(cfg), Header(ns), blocks), RenderedCount(LimitsOf(cfg), Header(ns), blocks);
            EstimateTokens(Assembled(cfg, ns, blocks)) <= cfg.maxTokens.value <==>
            NewlinesFit(cfg.maxTokens.value, lines, k)
  {
    var blocks := Map(Renderer(look), selected);
    var k := RenderedCount(LimitsOf(cfg), Header(ns), blocks);
    BlocksEnd(look, selected);
    HeaderBegins(ns);
    PlainWithinIff(LimitsOf(cfg), Header(ns), blocks);
  }
}
