/** That recall finds what there is to find: every matching memory in scope is recalled, repeated, or crowded out. */
module RecallLaws {
  import opened Seqs
  import opened Text
  import opened ThreadScope
  import opened Models
  import opened StoreModel
  import opened StoreLaws
  import opened Corpus
  import opened Ranking
  import opened Retrieval
  import opened Assembler
  import opened Recall
  import opened Positions
  import opened Budget
  import Policy
  import Grouping
  import RetrievalLaws
  import OrderLaws
  import SelectionLaws
  import QueryLaws

  // Whether a memory has to do with a query: in classic mode by a token in its text or inside a tag, in the
  // others by what supports it there; everything does if the query asks nothing.
  ghost predicate Pertinent(num: Numerics, mode: Mode, query: string, m: Record) {
    if mode.Classic? then Tokenize(query) == [] || Assembler.Matches(Tokenize(query), m)
    else Blank(query) || OrderLaws.Evident(num, query, mode, m)
  }

  lemma DistinctRecords(ms: seq<Record>)
    requires NoDup(Ids(ms))
    ensures NoDup(ms)
  {
    forall i, j | 0 <= i < j < |ms| ensures ms[i] != ms[j] {
      assert Ids(ms)[i] != Ids(ms)[j];
    }
  }

  // The ranking holds exactly the pertinent candidates.
  lemma RankedExactly(num: Numerics, cfg: Settings, ms: seq<Record>, query: string, m: Record)
    requires Corpus.Lawful(num) && NoDup(Ids(ms)) && forall x :: x in ms ==> HasId(x)
    ensures m in Ranked(num, cfg, ms, query) <==> m in ms && Pertinent(num, cfg.mode, query, m)
  {
    DistinctRecords(ms);
    if cfg.mode.Classic? {
      ClassicExact(num, cfg, ms, query);
    } else if Blank(query) {
      RankMembers(num, DEFAULT_WEIGHTS, ms, query);
      PermutedMembers(Rank(num, DEFAULT_WEIGHTS, ms, query), ms);
    } else {
      match cfg.mode
      case LexicalMode => RetrievalLaws.LexicalExact(num, ms, query);
      case VectorMode => RetrievalLaws.VectorExact(num, ms, query);
      case Hybrid => RetrievalLaws.HybridExact(num, ms, query);
    }
  }

  // A selected memory that is at the threshold of likeness with m, or above it.
  ghost predicate Repeated(m: Record, selected: seq<Record>, threshold: real) {
    exists k :: 0 <= k < |selected| && Grouping.Jaccard(m, selected[k]) >= threshold
  }

  lemma SelectedOrNot(num: Numerics, cfg: Settings, ms: seq<Record>, query: string, m: Record)
    requires cfg.maxMemories >= 0 && m in Ranked(num, cfg, ms, query)
    ensures var selected := Selected(num, cfg, ms, query);
            || m in selected
            || (cfg.dedupe && Repeated(m, selected, cfg.ranking.dedupeThreshold))
            || |selected| == cfg.maxMemories
  {
    var at := SelectionLaws.SelectedAreTheBest(num, cfg, ms, query);
    var ranked, selected := Ranked(num, cfg, ms, query), Selected(num, cfg, ms, query);
    var i :| 0 <= i < |ranked| && ranked[i] == m;
    if Picked(at, i) {
      var j :| 0 <= j < |at| && at[j] == i;
      assert selected[j] == m;
    } else if cfg.dedupe && SelectionLaws.Repeats(ranked, at, i, cfg.ranking.dedupeThreshold) {
      var j :| 0 <= j < |at| && at[j] < i && Grouping.Jaccard(ranked[i], ranked[at[j]]) >= cfg.ranking.dedupeThreshold;
      assert selected[j] == ranked[at[j]];
    }
  }

  // Every stored memory of the namespace that is of the project or the thread, of a configured status, not
  // expired and pertinent to the query is recalled, unless a recalled one repeats it or as many as allowed
  // are recalled.
  lemma RecallIsComplete(policy: Policy.Config, num: Numerics, cfg: Settings, render: Record -> string, s: State,
                         ns: Namespace, query: string, clock: string, m: Record)
    requires Inv(s) && Corpus.Lawful(num) && NormalizeThread(cfg.thread).Ok? && cfg.maxMemories >= 0
    requires m in s.rows && m.namespace == ns && (m.thread == None || m.thread == NormalizeThread(cfg.thread).value)
    requires m.status in cfg.statuses && QueryLaws.Alive(m, clock) && Pertinent(num, cfg.mode, query, m)
    ensures var outcome := RecallFrom(policy, num, cfg, render, s, ns, query, clock);
            && outcome.Recollection?
            && (|| m in outcome.matches
                || (cfg.dedupe && Repeated(m, outcome.matches, cfg.ranking.dedupeThreshold))
                || |outcome.matches| == cfg.maxMemories)
  {
    var q := CandidateRequest(cfg, ns, query);
    var candidates := CandidatesInScope(policy, s, cfg, ns, query, clock, m);
    RankedExactly(num, cfg, candidates, query, m);
    SelectedOrNot(num, cfg, candidates, query, m);
    RecallIs(policy, num, cfg, render, s, ns, query, clock, candidates);
  }

  lemma CandidatesInScope(policy: Policy.Config, s: State, cfg: Settings, ns: Namespace, query: string, clock: string, m: Record)
    returns (candidates: seq<Record>)
    requires Inv(s) && NormalizeThread(cfg.thread).Ok?
    requires m in s.rows && m.namespace == ns && (m.thread == None || m.thread == NormalizeThread(cfg.thread).value)
    requires m.status in cfg.statuses && QueryLaws.Alive(m, clock)
    ensures !QueryRefused(s, CandidateRequest(cfg, ns, query))
    ensures candidates == Filter(Answers(CandidateRequest(cfg, ns, query), clock), s.rows) && m in candidates
    ensures NoDup(Ids(candidates)) && forall x :: x in candidates ==> HasId(x)
  {
    var q := CandidateRequest(cfg, ns, query);
    candidates := Filter(Answers(q, clock), s.rows);
    QueryLaws.GoodModeIsAccepted(q);
    assert WellFormed(m);
    QueryLaws.WantedIsAnswer(q, clock, m);
    KeepsDistinct(IdOf, Answers(q, clock), s.rows);
  }

  // The settings a service call runs with: eight memories and no token budget unless it asks otherwise,
  // 4000 characters, near-duplicates removed, active memories only, and the classic mode unless another is named.
  lemma ServiceRunsWith(maxMemories: Option<int>, tokenBudget: Option<int>, thread: Option<string>, mode: Option<string>)
    requires ServiceSettings(maxMemories, tokenBudget, thread, mode).Some?
    ensures var cfg := ServiceSettings(maxMemories, tokenBudget, thread, mode).value;
            && cfg.maxMemories == (if maxMemories == None || maxMemories == Some(0) then 8 else maxMemories.value)
            && cfg.maxTokens == (if tokenBudget == Some(0) then None else tokenBudget)
            && cfg.maxChars == 4000 && cfg.dedupe && cfg.statuses == {"active"} && cfg.tagBoost == 0.5
            && cfg.ranking == Weights(1.0, 1.0, 0.25, 0.5, 0.5, 0.92)
            && Ok(cfg.thread) == NormalizeThread(thread)
            && (mode == None || mode == Some("") ==> cfg.mode == Classic)
            && (mode.Some? && Lower(Strip(mode.value)) == "classic" ==> cfg.mode == Classic)
            && (mode.Some? && Lower(Strip(mode.value)) == "lexical" ==> cfg.mode == LexicalMode)
            && (mode.Some? && Lower(Strip(mode.value)) == "vector" ==> cfg.mode == VectorMode)
            && (mode.Some? && Lower(Strip(mode.value)) == "hybrid" ==> cfg.mode == Hybrid)
  {
    KnownModes(mode);
  }

  lemma KnownModes(mode: Option<string>)
    ensures mode == None || mode == Some("") ==> NormalizeMode(mode) == Known(Classic)
    ensures mode.Some? && mode.value != "" ==>
              var name := Lower(Strip(mode.value));
              && (name == "classic" ==> NormalizeMode(mode) == Known(Classic))
              && (name == "lexical" ==> NormalizeMode(mode) == Known(LexicalMode))
              && (name == "vector" ==> NormalizeMode(mode) == Known(VectorMode))
              && (name == "hybrid" ==> NormalizeMode(mode) == Known(Hybrid))
              && (name !in {"classic", "lexical", "vector", "hybrid"} ==> NormalizeMode(mode) == UnknownMode)
  {
    assert Trimmed("classic") && Lower("classic") == "classic";
  }

  // The context of no memories is empty, and so is one whose header is over the budget; otherwise it is the header
  // and the blocks up to the first that does not fit what is left of the characters and of the tokens.
  lemma ContextIsGreedy(cfg: Settings, ns: Namespace, blocks: seq<string>) returns (k: nat)
    ensures var header, limits := Assembler.Header(ns), Limits(Some(cfg.maxChars), cfg.maxTokens);
            if blocks == [] || (cfg.maxTokens.Some? && EstimateTokens(header) > cfg.maxTokens.value) then
              Assembled(cfg, ns, blocks) == ""
            else
              && k <= |blocks| && Assembled(cfg, ns, blocks) == Strip(Join("\n", [header] + blocks[..k]))
              && (forall i :: 0 <= i < k ==> FitsNext(limits, header, blocks, i))
              && (k < |blocks| ==> !FitsNext(limits, header, blocks, k))
  {
    k := RenderedCount(LimitsOf(cfg), Assembler.Header(ns), blocks);
    RenderedUpTo(LimitsOf(cfg), Assembler.Header(ns), blocks);
  }
}
