/** Recall end to end: a store query, selection and rendering, and what it can depend on. */
module Recall {
  import opened Seqs
  import opened ThreadScope
  import opened Models
  import opened StoreModel
  import opened StoreLaws
  import opened Corpus
  import opened Ranking
  import opened Retrieval
  import opened Assembler
  import opened Isolation
  import Policy
  import Sorting
  import Grouping
  import Fusion
  import LiveStore

  datatype Outcome = RefusedThread | Recollection(matches: seq<Record>, context: string)

  // The assembler fetches everything in scope with the configured statuses, without a text match.
  function CandidateRequest(cfg: Settings, ns: Namespace, query: string): Request {
    Request(ns, query, Some(cfg.statuses), false, cfg.thread, None, false, "")
  }

  function RecallFrom(policy: Policy.Config, num: Numerics, cfg: Settings, render: Record -> string,
                      s: State, ns: Namespace, query: string, clock: string): Outcome
  {
    match DoQuery(policy, s, CandidateRequest(cfg, ns, query), clock, clock).reply
    case Matches(candidates) =>
      var selected := Selected(num, cfg, candidates, query);
      Recollection(selected, Assembled(cfg, ns, Map(render, selected)))
    case _ => RefusedThread
  }

  // A recall that is not refused selects from the rows that answer its request, and renders the selection.
  lemma RecallIs(policy: Policy.Config, num: Numerics, cfg: Settings, render: Record -> string, s: State, ns: Namespace,
                 query: string, clock: string, candidates: seq<Record>)
    requires Inv(s) && !QueryRefused(s, CandidateRequest(cfg, ns, query))
    requires candidates == Filter(Answers(CandidateRequest(cfg, ns, query), clock), s.rows)
    ensures var selected := Selected(num, cfg, candidates, query);
            RecallFrom(policy, num, cfg, render, s, ns, query, clock) ==
            Recollection(selected, Assembled(cfg, ns, Map(render, selected)))
  {
    QueryIsScan(policy, s, CandidateRequest(cfg, ns, query), clock, clock);
  }

  // What a query answers does not depend on when it is logged.
  lemma AnswerIgnoresLogging(policy: Policy.Config, s: State, q: Request, clock: string, at: string)
    ensures DoQuery(policy, s, q, clock, at).reply == DoQuery(policy, s, q, clock, clock).reply
  {
  }

  lemma RecallByReply(policy: Policy.Config, num: Numerics, cfg: Settings, render: Record -> string, s: State, ns: Namespace,
                      query: string, clock: string, reply: Reply)
    requires reply == DoQuery(policy, s, CandidateRequest(cfg, ns, query), clock, clock).reply
    ensures RecallFrom(policy, num, cfg, render, s, ns, query, clock) ==
            if reply.Matches? then
              var selected := Selected(num, cfg, reply.rows, query);
              Recollection(selected, Assembled(cfg, ns, Map(render, selected)))
            else RefusedThread
  {
  }

  function RecallScope(cfg: Settings, ns: Namespace): Scope {
    Scope(ns, cfg.thread, None)
  }

  // The values of a list of memory objects.
  method ReadValues(objects: seq<LiveStore.Memory>, ghost values: seq<Record>) returns (read: seq<Record>)
    requires LiveStore.Represent(objects, values)
    ensures read == values
  {
    read := [];
    for i := 0 to |objects|
      invariant read == values[..i]
    {
      read := read + [objects[i].Value()];
    }
  }

  // The assembler over a running store.
  class ContextAssembler {
    const store: LiveStore.MemoryStore
    const config: Settings

    constructor (store: LiveStore.MemoryStore, config: Settings)
      ensures this.store == store && this.config == config
    {
      this.store, this.config := store, config;
    }

    method Select(num: Numerics, ns: Namespace, query: string, clock: string, at: string)
      returns (refused: bool, selected: seq<Record>)
      requires store.Valid() && ns.Valid()
      modifies store`events, store.disk
      ensures store.Valid()
      ensures var step := DoQuery(store.cfg, old(store.State()), CandidateRequest(config, ns, query), clock, at);
              && store.State() == step.state
              && (refused <==> !step.reply.Matches?)
              && (!refused ==> selected == Selected(num, config, step.reply.rows, query))
    {
      ghost var reply := DoQuery(store.cfg, store.State(), CandidateRequest(config, ns, query), clock, at).reply;
      var found;
      refused, found := store.Query(CandidateRequest(config, ns, query), clock, at);
      if refused {
        return true, [];
      }
      var candidates := ReadValues(found, reply.rows);
      selected := Narrow(num, candidates, query);
    }

    // Rank, filter, deduplicate and cap.
    method Narrow(num: Numerics, candidates: seq<Record>, query: string) returns (selected: seq<Record>)
      ensures selected == Selected(num, config, candidates, query)
    {
      if config.mode.Classic? {
        var terms := Text.Tokenize(query);
        selected := Rank(num, Effective(config), candidates, query);
        if terms != [] {
          selected := Filter(Relevant(num, Collect(candidates), terms), selected);
        }
      } else {
        selected := RankAuthorized(num, candidates, query, config.mode);
      }
      if config.dedupe {
        selected := Grouping.Dedupe(Grouping.AlikeAt(config.ranking.dedupeThreshold), selected);
      }
      selected := Take(selected, config.maxMemories);
    }

    // The selected memories and the rendered context, as the model of recall says.
    method Build(num: Numerics, render: Record -> string, ns: Namespace, query: string, clock: string, at: string)
      returns (outcome: Outcome)
      requires store.Valid() && ns.Valid()
      modifies store`events, store.disk
      ensures store.Valid()
      ensures outcome == RecallFrom(store.cfg, num, config, render, old(store.State()), ns, query, clock)
    {
      ghost var s, q := store.State(), CandidateRequest(config, ns, query);
      ghost var reply := DoQuery(store.cfg, s, q, clock, at).reply;
      AnswerIgnoresLogging(store.cfg, s, q, clock, at);
      RecallByReply(store.cfg, num, config, render, s, ns, query, clock, reply);
      var refused, selected := Select(num, ns, query, clock, at);
      if refused {
        return RefusedThread;
      }
      var context := Assemble(config, render, ns, selected);
      outcome := Recollection(selected, context);
    }
  }

  // ----- Non-interference -----

  // Two stores that show a namespace and thread the same rows, in order, give the same matches and the
  // same context in every mode, whatever else they hold.
  lemma RecallDependsOnScope(policy: Policy.Config, num: Numerics, cfg: Settings, render: Record -> string,
                             s: State, t: State, ns: Namespace, query: string, clock: string)
    requires Inv(s) && Inv(t)
    requires Filter(RecallScope(cfg, ns).Sees(), s.rows) == Filter(RecallScope(cfg, ns).Sees(), t.rows)
    ensures RecallFrom(policy, num, cfg, render, s, ns, query, clock) ==
            RecallFrom(policy, num, cfg, render, t, ns, query, clock)
  {
    RepliesAlike(policy, s, t, CandidateRequest(cfg, ns, query), clock, clock, clock);
  }

  // Recall after any run equals recall after the run from which everything outside the scope was removed:
  // no outside term count, recency or status reaches the ranking.
  lemma RecallAfterPurge(policy: Policy.Config, num: Numerics, cfg: Settings, render: Record -> string,
                         ops: seq<Op>, ns: Namespace, query: string, clock: string)
    requires Policy.Lawful(policy) && Legal(ops)
    ensures RecallFrom(policy, num, cfg, render, Run(policy, EMPTY, ops), ns, query, clock) ==
            RecallFrom(policy, num, cfg, render, Run(policy, EMPTY, Purge(policy, RecallScope(cfg, ns), ops)), ns, query, clock)
  {
    var scope := RecallScope(cfg, ns);
    RunKeepsInv(policy, ops);
    PurgedRunLooksTheSame(policy, scope, ops);
    var s, t := Run(policy, EMPTY, ops), Run(policy, EMPTY, Purge(policy, scope, ops));
    FilterAll(scope.Sees(), t.rows);
    RecallDependsOnScope(policy, num, cfg, render, s, t, ns, query, clock);
  }

  // ----- What is recalled -----

  lemma {:induction false} CandidatesAreGiven(ms: seq<Record>, ev: Evidence, ids: seq<string>)
    ensures forall k :: k in Candidates(ms, ev, ids) ==> k.memory in ms
  {
    if ids != [] {
      CandidatesAreGiven(ms, ev, ids[..|ids| - 1]);
    }
  }

  lemma EvidenceRanksGiven(ms: seq<Record>, ev: Evidence, m: Record)
    requires m in RankByEvidence(ms, ev)
    ensures m in ms
  {
    var keyed := Candidates(ms, ev, Fusion.RankingIds(ev.relevance));
    CandidatesAreGiven(ms, ev, Fusion.RankingIds(ev.relevance));
    Sorting.SortMembers(BestFirst, keyed);
    var i :| 0 <= i < |RankByEvidence(ms, ev)| && RankByEvidence(ms, ev)[i] == m;
    assert Sorting.Sort(BestFirst, keyed)[i] in keyed;
  }

  // Ranking, filtering, deduplicating and capping only ever reorder and drop.
  lemma SelectedAreCandidates(num: Numerics, cfg: Settings, candidates: seq<Record>, query: string, m: Record)
    requires m in Selected(num, cfg, candidates, query)
    ensures m in candidates
  {
    var ranked := Ranked(num, cfg, candidates, query);
    Grouping.DedupeIsMaximal(Grouping.AlikeAt(cfg.ranking.dedupeThreshold), ranked);
    assert m in ranked;
    if cfg.mode.Classic? {
      RankMembers(num, Effective(cfg), candidates, query);
      PermutedMembers(Rank(num, Effective(cfg), candidates, query), candidates);
    } else if Text.Blank(query) {
      RankMembers(num, DEFAULT_WEIGHTS, candidates, query);
      PermutedMembers(Rank(num, DEFAULT_WEIGHTS, candidates, query), candidates);
    } else {
      var usable := Filter(HasId, candidates);
      EvidenceRanksGiven(usable, Gather(num, usable, query, cfg.mode), m);
    }
  }

  // Whatever is recalled is stored in the asked namespace, project-wide or in the asked thread, has a
  // configured status and has not expired.
  lemma RecalledAreInScope(policy: Policy.Config, num: Numerics, cfg: Settings, render: Record -> string,
                           s: State, ns: Namespace, query: string, clock: string, m: Record)
    requires Inv(s)
    requires var r := RecallFrom(policy, num, cfg, render, s, ns, query, clock);
             r.Recollection? && m in r.matches
    ensures m in s.rows && m.namespace == ns && m.status in cfg.statuses
    ensures m.thread == None || Ok(m.thread) == NormalizeThread(cfg.thread)
    ensures m.expiresAt.Some? && m.expiresAt.value != "" ==> Text.Less(clock, m.expiresAt.value)
  {
    RecalledAnswers(policy, num, cfg, render, s, ns, query, clock, m);
    AnswersAreInScope(cfg, ns, query, clock, m);
  }

  lemma RecalledAnswers(policy: Policy.Config, num: Numerics, cfg: Settings, render: Record -> string,
                        s: State, ns: Namespace, query: string, clock: string, m: Record)
    requires Inv(s)
    requires var r := RecallFrom(policy, num, cfg, render, s, ns, query, clock);
             r.Recollection? && m in r.matches
    ensures m in s.rows && NormalThread(m.thread) && Answers(CandidateRequest(cfg, ns, query), clock)(m)
  {
    var q := CandidateRequest(cfg, ns, query);
    SelectedAreCandidates(num, cfg, DoQuery(policy, s, q, clock, clock).reply.rows, query, m);
    QueryIsScan(policy, s, q, clock, clock);
  }

  lemma AnswersAreInScope(cfg: Settings, ns: Namespace, query: string, clock: string, m: Record)
    requires NormalThread(m.thread) && Answers(CandidateRequest(cfg, ns, query), clock)(m)
    ensures m.namespace == ns && m.status in cfg.statuses
    ensures m.thread == None || Ok(m.thread) == NormalizeThread(cfg.thread)
    ensures m.expiresAt.Some? && m.expiresAt.value != "" ==> Text.Less(clock, m.expiresAt.value)
  {
    var q := CandidateRequest(cfg, ns, query);
    assert m.namespace == q.namespace && AdmitsThread(m.thread, q.thread, q.mode) == Ok(true)
           && StatusAllows(q, m) && ExpiryAllows(q, clock, m);
    AnswersKeepThread(q, clock, m);
  }

  // ----- The service call -----

  // The assembler's settings for a service request; None where a thread or mode is not acceptable.
  function ServiceSettings(maxMemories: Option<int>, tokenBudget: Option<int>, thread: Option<string>, mode: Option<string>)
    : Option<Settings>
  {
    match (NormalizeThread(thread), NormalizeMode(mode))
    case (Ok(t), Known(m)) =>
      Some(Settings(if maxMemories.GetOr(0) != 0 then maxMemories.value else 8, 4000, 0.5,
                    if tokenBudget.GetOr(0) != 0 then tokenBudget else None, true, {"active"}, DEFAULT_WEIGHTS, t, m))
    case _ => None
  }

  // A service request with acceptable thread and mode is always answered, with active memories of the
  // namespace that are project-wide or in the asked thread.
  lemma ServiceAnswers(policy: Policy.Config, num: Numerics, render: Record -> string, s: State, ns: Namespace, query: string,
                       clock: string, maxMemories: Option<int>, tokenBudget: Option<int>, thread: Option<string>,
                       mode: Option<string>)
    requires Inv(s) && ServiceSettings(maxMemories, tokenBudget, thread, mode).Some?
    ensures var cfg := ServiceSettings(maxMemories, tokenBudget, thread, mode).value;
            var outcome := RecallFrom(policy, num, cfg, render, s, ns, query, clock);
            && outcome.Recollection?
            && forall m :: m in outcome.matches ==>
                             m in s.rows && m.namespace == ns && m.status == "active"
                             && (m.thread == None || Ok(m.thread) == NormalizeThread(thread))
  {
    var cfg := ServiceSettings(maxMemories, tokenBudget, thread, mode).value;
    NormalizeThreadIdempotent(thread);
    var outcome := RecallFrom(policy, num, cfg, render, s, ns, query, clock);
    NamedThreadIsAnswered(policy, s, CandidateRequest(cfg, ns, query), clock);
    forall m | m in outcome.matches
      ensures m in s.rows && m.namespace == ns && m.status in {"active"}
              && (m.thread == None || Ok(m.thread) == NormalizeThread(cfg.thread))
    {
      RecalledAreInScope(policy, num, cfg, render, s, ns, query, clock, m);
    }
  }

  // A request in the default mode for a thread in normal form is never refused.
  lemma NamedThreadIsAnswered(policy: Policy.Config, s: State, q: Request, clock: string)
    requires Inv(s) && NormalThread(q.thread) && q.mode == None
    ensures DoQuery(policy, s, q, clock, clock).reply.Matches?
  {
    QueryIsScan(policy, s, q, clock, clock);
  }
}
