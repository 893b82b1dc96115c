/** Non-interference: what a scope shows does not depend on other namespaces or sibling threads. */
module Isolation {
  import opened Seqs
  import opened ThreadScope
  import opened Models
  import opened Policy
  import opened StoreModel
  import opened StoreLaws

  // A namespace together with a thread request.
  datatype Scope = Scope(namespace: Namespace, thread: Option<string>, mode: Option<string>) {
    function Sees(): Record -> bool {
      Visible(namespace, thread, mode)
    }
  }

  // Whether an operation changes a memory that the scope sees.
  predicate Concerns(scope: Scope, rows: seq<Record>, op: Op) {
    match op
    case Add(m, _, _) => scope.Sees()(m)
    case SetStatus(id, _, _) => Lookup(rows, id).Some? && scope.Sees()(Lookup(rows, id).value)
    case SetConfidence(id, _, _) => Lookup(rows, id).Some? && scope.Sees()(Lookup(rows, id).value)
    case Forget(id, _) => Lookup(rows, id).Some? && scope.Sees()(Lookup(rows, id).value)
    case Query(_, _, _) => false
  }

  // The run with every operation on anything outside the scope removed.
  function Purge(cfg: Config, scope: Scope, ops: seq<Op>): seq<Op> {
    if ops == [] then []
    else
      var init, op := ops[..|ops| - 1], ops[|ops| - 1];
      Purge(cfg, scope, init) + if Concerns(scope, Run(cfg, EMPTY, init).rows, op) then [op] else []
  }

  ghost predicate Alike(a: Record, b: Record) {
    a.id == b.id && a.namespace == b.namespace && a.thread == b.thread
  }

  lemma {:induction false} FilterReplace(scope: Scope, rows: seq<Record>, i: nat, r: Record)
    requires NoDup(Ids(rows)) && i < |rows| && Alike(r, rows[i])
    ensures var vis := scope.Sees();
            Filter(vis, rows[i := r]) == if vis(r) then Put(Filter(vis, rows), r) else Filter(vis, rows)
  {
    var vis, n := scope.Sees(), |rows| - 1;
    var init, last := rows[..n], rows[n];
    assert rows == init + [last];
    assert Ids(init) == Ids(rows)[..n] && Ids(rows)[n] == last.id && Ids(rows)[i] == r.id;
    NoDupPrefix(Ids(rows));
    FilteredIds(vis, init);
    var kept := Filter(vis, init);
    if i == n {
      assert rows[i := r][..n] == init;
      if vis(r) {
        PutLast(kept, last, r);
      }
    } else {
      assert rows[i := r][..n] == init[i := r];
      FilterReplace(scope, init, i, r);
      if vis(r) {
        assert init[i] in kept;
        IdMembers(kept, init[i]);
        PutInner(kept, last, r);
      }
    }
  }

  lemma FilteredIds(p: Record -> bool, rows: seq<Record>)
    ensures forall id :: id in Ids(Filter(p, rows)) ==> id in Ids(rows)
  {
    forall id | id in Ids(Filter(p, rows)) ensures id in Ids(rows) {
      var i :| 0 <= i < |Filter(p, rows)| && Ids(Filter(p, rows))[i] == id;
      IdMembers(rows, Filter(p, rows)[i]);
    }
  }

  lemma PutLast(rows: seq<Record>, last: Record, r: Record)
    requires r.id == last.id && r.id !in Ids(rows)
    ensures Put(rows + [last], r) == rows + [r]
  {
    assert (rows + [last])[..|rows|] == rows;
  }

  lemma PutInner(rows: seq<Record>, last: Record, r: Record)
    requires r.id in Ids(rows)
    ensures Put(rows + [last], r) == Put(rows, r) + [last]
    ensures Put(rows, r) == rows[Position(rows, r.id) := r]
  {
    assert (rows + [last])[..|rows|] == rows;
  }

  lemma FilterDrop(scope: Scope, rows: seq<Record>, id: string)
    ensures Filter(scope.Sees(), Drop(rows, id)) == Drop(Filter(scope.Sees(), rows), id)
  {
    var vis := scope.Sees();
    var both := (r: Record) => vis(r) && r.id != id;
    FilterFilter(vis, NotId(id), both, rows);
    FilterFilter(NotId(id), vis, both, rows);
  }

  lemma LookupVisible(scope: Scope, rows: seq<Record>, id: string)
    requires NoDup(Ids(rows)) && Lookup(rows, id).Some?
    ensures var vis := scope.Sees();
            if vis(Lookup(rows, id).value) then Lookup(Filter(vis, rows), id) == Lookup(rows, id)
            else id !in Ids(Filter(vis, rows))
  {
    var vis, r := scope.Sees(), Lookup(rows, id).value;
    var kept := Filter(vis, rows);
    if vis(r) {
      IdMembers(kept, r);
      UniqueId(rows, Lookup(kept, id).value, r);
    } else if id in Ids(kept) {
      var i :| 0 <= i < |kept| && Ids(kept)[i] == id;
      assert kept[i] in kept;
      UniqueId(rows, kept[i], r);
    }
  }

  // One operation acts on what the scope sees as it would act on that alone, or not at all.
  lemma StepIsolated(cfg: Config, scope: Scope, s: State, t: State, op: Op)
    requires Lawful(cfg) && Inv(s) && Inv(t) && FreshOp(op, set id | id in Ids(s.rows))
    requires Filter(scope.Sees(), s.rows) == t.rows
    ensures Filter(scope.Sees(), Do(cfg, s, op).state.rows) ==
              if Concerns(scope, s.rows, op) then Do(cfg, t, op).state.rows else t.rows
  {
    var vis := scope.Sees();
    match op
    case Add(m, newId, at) =>
      if Review(m, cfg).Accepted? {
        ReviewKeepsForm(m, cfg);
        var r := Review(m, cfg).record.(id := newId, createdAt := at, updatedAt := at);
        assert vis(r) == vis(m);
        FilteredIds(vis, s.rows);
        FilterAppend(vis, s.rows, [r]);
      }
    case SetStatus(id, status, at) =>
      if status in MEMORY_STATUSES && Lookup(s.rows, id).Some? {
        UpdateIsolated(scope, s.rows, id, Lookup(s.rows, id).value.(status := status, updatedAt := at));
      }
    case SetConfidence(id, confidence, at) =>
      if 0.0 <= confidence <= 1.0 && Lookup(s.rows, id).Some? {
        UpdateIsolated(scope, s.rows, id, Lookup(s.rows, id).value.(confidence := confidence, updatedAt := at));
      }
    case Forget(id, at) =>
      if Lookup(s.rows, id).Some? {
        LookupVisible(scope, s.rows, id);
        FilterDrop(scope, s.rows, id);
        if !Concerns(scope, s.rows, op) {
          forall r | r in t.rows ensures NotId(id)(r) {
            IdMembers(t.rows, r);
          }
          FilterAll(NotId(id), t.rows);
        }
      }
    case Query(q, clock, at) =>
      QueryIsScan(cfg, s, q, clock, at);
  }

  lemma UpdateIsolated(scope: Scope, rows: seq<Record>, id: string, r: Record)
    requires NoDup(Ids(rows)) && Lookup(rows, id).Some? && Alike(r, Lookup(rows, id).value)
    ensures var vis := scope.Sees();
            var kept := Filter(vis, rows);
            && (vis(r) <==> vis(Lookup(rows, id).value))
            && (vis(r) ==> Lookup(kept, id) == Lookup(rows, id))
            && Filter(vis, Put(rows, r)) == if vis(r) then Put(kept, r) else kept
  {
    FilterReplace(scope, rows, Position(rows, id), r);
    LookupVisible(scope, rows, id);
  }

  // For every run, what a scope sees is exactly what remains when all operations on other namespaces
  // and sibling threads are removed from the run.
  lemma {:induction false} PurgedRunLooksTheSame(cfg: Config, scope: Scope, ops: seq<Op>)
    requires Lawful(cfg) && Legal(ops)
    ensures var purged := Purge(cfg, scope, ops);
            && Inv(Run(cfg, EMPTY, purged))
            && Filter(scope.Sees(), Run(cfg, EMPTY, ops).rows) == Run(cfg, EMPTY, purged).rows
  {
    RunKeepsInv(cfg, []);
    if ops != [] {
      var init, op := ops[..|ops| - 1], ops[|ops| - 1];
      PurgedRunLooksTheSame(cfg, scope, init);
      RunKeepsInv(cfg, init);
      var s, t := Run(cfg, EMPTY, init), Run(cfg, EMPTY, Purge(cfg, scope, init));
      StepIsolated(cfg, scope, s, t, op);
      if Concerns(scope, s.rows, op) {
        FilteredIds(scope.Sees(), s.rows);
        DoKeepsInv(cfg, t, op);
        assert Purge(cfg, scope, ops)[..|Purge(cfg, scope, ops)| - 1] == Purge(cfg, scope, init);
      } else {
        assert Purge(cfg, scope, ops) == Purge(cfg, scope, init);
      }
    }
  }

  function ScopeOf(q: Request): Scope {
    Scope(q.namespace, q.thread, q.mode)
  }

  function Narrow(q: Request, clock: string): Record -> bool {
    (r: Record) => Eligible(q, clock)(r) && Mentions(q)(r)
  }

  lemma AnswersFromVisible(rows: seq<Record>, q: Request, clock: string)
    ensures Filter(Answers(q, clock), rows) == Filter(Narrow(q, clock), Filter(ScopeOf(q).Sees(), rows))
  {
    forall r | r in rows
      ensures Answers(q, clock)(r) == (Narrow(q, clock)(r) && ScopeOf(q).Sees()(r))
    {
      assert ScopeOf(q).Sees()(r) <==>
             r.namespace == q.namespace && AdmitsThread(r.thread, q.thread, q.mode) == Ok(true);
      assert Eligible(q, clock)(r) <==> StatusAllows(q, r) && ExpiryAllows(q, clock, r);
      assert Narrow(q, clock)(r) <==> Eligible(q, clock)(r) && Mentions(q)(r);
    }
    FilterFilter(Narrow(q, clock), ScopeOf(q).Sees(), Answers(q, clock), rows);
  }

  ghost predicate Occupied(rows: seq<Record>, ns: Namespace) {
    exists r :: r in rows && r.namespace == ns
  }

  // Two stores that show a scope the same rows reply alike, except in one case: an invalid thread mode
  // is refused only when the namespace holds some row, seen or not.
  lemma RepliesAlike(cfg: Config, s: State, t: State, q: Request, clock: string, at1: string, at2: string)
    requires Inv(s) && Inv(t)
    requires Filter(ScopeOf(q).Sees(), s.rows) == Filter(ScopeOf(q).Sees(), t.rows)
    ensures DoQuery(cfg, s, q, clock, at1).reply == DoQuery(cfg, t, q, clock, at2).reply <==>
              || NormalizeThread(q.thread).Refused?
              || ResolveMode(q.thread, q.mode).Ok?
              || (Occupied(s.rows, q.namespace) <==> Occupied(t.rows, q.namespace))
  {
    QueryIsScan(cfg, s, q, clock, at1);
    QueryIsScan(cfg, t, q, clock, at2);
    AnswersFromVisible(s.rows, q, clock);
    AnswersFromVisible(t.rows, q, clock);
  }
}
