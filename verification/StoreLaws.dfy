/** Results about every run of the store: index, queries and audit log. */
module StoreLaws {
  import opened Seqs
  import opened ThreadScope
  import opened Models
  import opened Policy
  import opened StoreModel

  // ----- Reachable states -----

  // Every legal run keeps the invariant, and only drawn ids are ever stored.
  lemma {:induction false} RunKeepsInv(cfg: Config, ops: seq<Op>)
    requires Lawful(cfg) && Legal(ops)
    ensures Inv(Run(cfg, EMPTY, ops))
    ensures forall id :: id in Ids(Run(cfg, EMPTY, ops).rows) ==> id in Drawn(ops)
  {
    if ops == [] {
      assert Ids(EMPTY.rows) == [];
      forall key ensures IndexAt(EMPTY.index, key) == IdsUnder(EMPTY.rows, key) {}
    } else {
      var init, op := ops[..|ops| - 1], ops[|ops| - 1];
      RunKeepsInv(cfg, init);
      var s := Run(cfg, EMPTY, init);
      DoKeepsInv(cfg, s, op);
      DrawnStep(ops);
      IdsAfter(cfg, s, op);
    }
  }

  lemma PutIds(rows: seq<Record>, r: Record)
    ensures forall id :: id in Ids(Put(rows, r)) ==> id in Ids(rows) || id == r.id
  {
    var i := Position(rows, r.id);
    if i < |rows| {
      assert Ids(rows[i := r]) == Ids(rows);
    } else {
      IdsUnderAppend(rows, r, "");
    }
  }

  // One step stores at most the id it was given.
  lemma IdsAfter(cfg: Config, s: State, op: Op)
    requires Inv(s)
    ensures forall id :: id in Ids(Do(cfg, s, op).state.rows) ==>
                           id in Ids(s.rows) || (op.Add? && id == op.newId)
  {
    var t := Do(cfg, s, op).state;
    if op.Query? {
      QueryIsScan(cfg, s, op.request, op.clock, op.at);
    } else if op.Forget? {
      IdsDrop(s.rows, op.id);
      assert t.rows == s.rows || t.rows == Drop(s.rows, op.id);
    } else if t.rows != s.rows {
      var r :| t.rows == Put(s.rows, r) && ((op.Add? && r.id == op.newId) || r.id in Ids(s.rows));
      PutIds(s.rows, r);
    }
  }

  // A longer run continues where a shorter one ended.
  lemma {:induction false} RunSplit(cfg: Config, s: State, a: seq<Op>, b: seq<Op>)
    ensures Run(cfg, s, a + b) == Run(cfg, Run(cfg, s, a), b)
    ensures Actions(cfg, s, a + b) == Actions(cfg, s, a) + Actions(cfg, Run(cfg, s, a), b)
  {
    if b == [] {
      assert a + b == a;
    } else {
      var init := b[..|b| - 1];
      assert (a + b)[..|a + b| - 1] == a + init && (a + b)[|a + b| - 1] == b[|b| - 1];
      RunSplit(cfg, s, a, init);
      AssocStep(Actions(cfg, s, a), Actions(cfg, Run(cfg, s, a), init), Do(cfg, Run(cfg, s, a + init), b[|b| - 1]).actions);
    }
  }

  lemma AssocStep<T>(a: seq<T>, b: seq<T>, c: seq<T>)
    ensures (a + b) + c == a + (b + c)
  {
  }

  // ----- Queries -----

  // What a query answers, stated on the rows alone.
  function Answers(q: Request, clock: string): Record -> bool {
    (r: Record) =>
      && r.namespace == q.namespace
      && AdmitsThread(r.thread, q.thread, q.mode) == Ok(true)
      && StatusAllows(q, r)
      && ExpiryAllows(q, clock, r)
      && Mentions(q)(r)
  }

  function InScope(q: Request, clock: string): Record -> bool {
    (r: Record) =>
      && r.namespace == q.namespace
      && AdmitsThread(r.thread, q.thread, q.mode) == Ok(true)
      && StatusAllows(q, r)
      && ExpiryAllows(q, clock, r)
  }

  lemma {:induction false} FetchIds(rows: seq<Record>, sub: seq<Record>)
    requires NoDup(Ids(rows)) && forall r :: r in sub ==> r in rows
    ensures Fetch(rows, Ids(sub)) == sub
  {
    if sub != [] {
      var init, last := sub[..|sub| - 1], sub[|sub| - 1];
      FetchIds(rows, init);
      assert Ids(sub)[..|sub| - 1] == Ids(init);
      assert last in rows;
      var i :| 0 <= i < |rows| && rows[i] == last;
      FoundAt(rows, i);
      assert sub == init + [last];
    }
  }

  // The index, with its colliding keys, and the namespace re-check together give an exact scan.
  lemma IndexedScope(s: State, ns: Namespace)
    requires Inv(s)
    ensures Filter(InNamespace(ns), Fetch(s.rows, IndexAt(s.index, ns.AsKey()))) == Filter(InNamespace(ns), s.rows)
  {
    FetchIds(s.rows, Filter(HasKey(ns.AsKey()), s.rows));
    FilterFilter(InNamespace(ns), HasKey(ns.AsKey()), InNamespace(ns), s.rows);
  }

  lemma NormalizedRequest(stored: Option<string>, thread: Option<string>, mode: Option<string>)
    requires NormalizeThread(thread).Ok?
    ensures AdmitsThread(stored, NormalizeThread(thread).value, mode) == AdmitsThread(stored, thread, mode)
  {
    NormalizeThreadIdempotent(thread);
    SameMode(NormalizeThread(thread).value, thread, mode);
  }

  lemma SameMode(a: Option<string>, b: Option<string>, mode: Option<string>)
    requires NormalizeThread(a) == NormalizeThread(b)
    ensures ResolveMode(a, mode) == ResolveMode(b, mode)
  {
  }

  ghost predicate QueryRefused(s: State, q: Request) {
    || NormalizeThread(q.thread).Refused?
    || ((exists r :: r in s.rows && r.namespace == q.namespace) && ResolveMode(q.thread, q.mode).Refused?)
  }

  lemma RefusalIsByMode(s: State, q: Request)
    requires NormalizeThread(q.thread).Ok? && forall r :: r in s.rows ==> NormalThread(r.thread)
    ensures var requested := NormalizeThread(q.thread).value;
            (exists r :: r in Filter(InNamespace(q.namespace), s.rows) && ThreadRefuses(requested, q.mode)(r))
            <==> (exists r :: r in s.rows && r.namespace == q.namespace) && ResolveMode(q.thread, q.mode).Refused?
  {
    var requested := NormalizeThread(q.thread).value;
    forall r | r in s.rows
      ensures ThreadRefuses(requested, q.mode)(r) <==> ResolveMode(q.thread, q.mode).Refused?
    {
      NormalizedRequest(r.thread, q.thread, q.mode);
    }
  }

  lemma NarrowingIsScan(rows: seq<Record>, q: Request, clock: string)
    requires NormalizeThread(q.thread).Ok?
    ensures var seen := Filter(Visible(q.namespace, NormalizeThread(q.thread).value, q.mode),
                               Filter(InNamespace(q.namespace), rows));
            && Filter(Eligible(q, clock), seen) == Filter(InScope(q, clock), rows)
            && Filter(Mentions(q), Filter(InScope(q, clock), rows)) == Filter(Answers(q, clock), rows)
  {
    var requested := NormalizeThread(q.thread).value;
    var visible := Visible(q.namespace, requested, q.mode);
    forall r | r in rows
      ensures AdmitsThread(r.thread, requested, q.mode) == AdmitsThread(r.thread, q.thread, q.mode)
    {
      NormalizedRequest(r.thread, q.thread, q.mode);
    }
    FilterFilter(visible, InNamespace(q.namespace), visible, rows);
    FilterFilter(Eligible(q, clock), visible, InScope(q, clock), rows);
    FilterFilter(Mentions(q), InScope(q, clock), Answers(q, clock), rows);
  }

  // The index left out, a query narrows the rows of its namespace.
  lemma QueryOfRows(cfg: Config, s: State, q: Request, clock: string, at: string)
    requires Inv(s)
    ensures var scope, thread := Filter(InNamespace(q.namespace), s.rows), NormalizeThread(q.thread);
            DoQuery(cfg, s, q, clock, at) ==
            if thread.Refused? || exists r :: r in scope && ThreadRefuses(thread.value, q.mode)(r) then Step(s, [], BadThread)
            else
              var eligible := Filter(Eligible(q, clock), Filter(Visible(q.namespace, thread.value, q.mode), scope));
              var e := Event(q.namespace, at, Recalled(RedactIfSecret(cfg, q.text), |eligible|, thread.value));
              Step(Logged(s, e), [Emit(e)], Matches(Filter(Mentions(q), eligible)))
  {
    IndexedScope(s, q.namespace);
  }

  // A query is refused exactly for a bad thread, or a bad mode when the namespace holds a row;
  // otherwise it answers the order-preserving filter of all rows and records one recall event.
  lemma QueryIsScan(cfg: Config, s: State, q: Request, clock: string, at: string)
    requires Inv(s)
    ensures var step := DoQuery(cfg, s, q, clock, at);
            if QueryRefused(s, q) then step == Step(s, [], BadThread)
            else
              var e := Event(q.namespace, at,
                             Recalled(RedactIfSecret(cfg, q.text), |Filter(InScope(q, clock), s.rows)|,
                                      NormalizeThread(q.thread).value));
              step == Step(s.(events := s.events + [e]), [Emit(e)], Matches(Filter(Answers(q, clock), s.rows)))
  {
    QueryOfRows(cfg, s, q, clock, at);
    if NormalizeThread(q.thread).Ok? {
      RefusalIsByMode(s, q);
      NarrowingIsScan(s.rows, q, clock);
    }
  }

  // No answer comes from another namespace or from a sibling thread.
  lemma QueryNeverLeaks(cfg: Config, s: State, q: Request, clock: string, at: string, r: Record)
    requires Inv(s) && DoQuery(cfg, s, q, clock, at).reply.Matches? && r in DoQuery(cfg, s, q, clock, at).reply.rows
    ensures r in s.rows && r.namespace == q.namespace
    ensures r.thread == None || Ok(r.thread) == NormalizeThread(q.thread)
  {
    QueryIsScan(cfg, s, q, clock, at);
    assert Answers(q, clock)(r);
    AnswersKeepThread(q, clock, r);
  }

  lemma AnswersKeepThread(q: Request, clock: string, r: Record)
    requires NormalThread(r.thread) && NormalizeThread(q.thread).Ok? && Answers(q, clock)(r)
    ensures r.thread == None || Ok(r.thread) == NormalizeThread(q.thread)
  {
    NormalizeThreadIdempotent(q.thread);
    NormalizedRequest(r.thread, q.thread, q.mode);
    NeverCrossesThreads(r.thread, NormalizeThread(q.thread).value, q.mode);
  }

  // ----- What one operation changes -----

  function Target(op: Op): string {
    match op
    case Add(_, newId, _) => newId
    case SetStatus(id, _, _) => id
    case SetConfidence(id, _, _) => id
    case Forget(id, _) => id
    case Query(_, _, _) => ""
  }

  lemma {:induction false} DropReplaced(rows: seq<Record>, i: nat, r: Record)
    requires i < |rows| && r.id == rows[i].id
    ensures Drop(rows[i := r], r.id) == Drop(rows, r.id)
  {
    var n := |rows| - 1;
    if i < n {
      DropReplaced(rows[..n], i, r);
      assert rows[i := r][..n] == rows[..n][i := r];
    } else {
      assert rows[i := r][..n] == rows[..n];
    }
  }

  lemma DropPut(rows: seq<Record>, r: Record)
    ensures Drop(Put(rows, r), r.id) == Drop(rows, r.id)
  {
    var i := Position(rows, r.id);
    if i < |rows| {
      DropReplaced(rows, i, r);
    } else {
      assert (rows + [r])[..|rows|] == rows;
    }
  }

  // An operation leaves every memory but its own as it was, and in the same order.
  lemma OthersUntouched(cfg: Config, s: State, op: Op)
    requires Inv(s)
    ensures var rows := Do(cfg, s, op).state.rows;
            if op.Query? then rows == s.rows else Drop(rows, Target(op)) == Drop(s.rows, Target(op))
  {
    if op.Query? {
      QueryIsScan(cfg, s, op.request, op.clock, op.at);
    } else if op.Forget? {
      FilterFilter(NotId(op.id), NotId(op.id), NotId(op.id), s.rows);
    } else {
      var rows := Do(cfg, s, op).state.rows;
      if rows != s.rows {
        var r :| rows == Put(s.rows, r) && r.id == Target(op);
        DropPut(s.rows, r);
      }
    }
  }

  lemma PutIsFound(rows: seq<Record>, r: Record)
    requires NoDup(Ids(rows))
    ensures Lookup(Put(rows, r), r.id) == Some(r)
  {
    var i := Position(rows, r.id);
    if i < |rows| {
      assert Ids(rows[i := r]) == Ids(rows) && rows[i := r][i] == r;
      FoundAt(rows[i := r], i);
    } else {
      IdsUnderAppend(rows, r, "");
      NoDupAppend(Ids(rows), r.id);
      assert (rows + [r])[|rows|] == r;
      FoundAt(rows + [r], |rows|);
    }
  }

  // A lifecycle change sets one field and the update time, and logs the old and the new value.
  lemma ChangeIsRecorded(s: State, id: string, status: string, confidence: real, at: string)
    requires Inv(s) && Lookup(s.rows, id).Some? && status in MEMORY_STATUSES && 0.0 <= confidence <= 1.0
    ensures var was, t := Lookup(s.rows, id).value, DoSetStatus(s, id, status, at).state;
            && Lookup(t.rows, id) == Some(was.(status := status, updatedAt := at))
            && t.events == s.events + [Event(was.namespace, at, StatusChanged(id, was.status, Lookup(t.rows, id).value.status))]
    ensures var was, t := Lookup(s.rows, id).value, DoSetConfidence(s, id, confidence, at).state;
            && Lookup(t.rows, id) == Some(was.(confidence := confidence, updatedAt := at))
            && t.events == s.events +
                           [Event(was.namespace, at, ConfidenceChanged(id, was.confidence, Lookup(t.rows, id).value.confidence))]
  {
    var was := Lookup(s.rows, id).value;
    PutIsFound(s.rows, was.(status := status, updatedAt := at));
    PutIsFound(s.rows, was.(confidence := confidence, updatedAt := at));
  }

  // Which memory has an id, if any: k counts the rows when there is none.
  ghost predicate Stands(rows: seq<Record>, id: string, k: nat) {
    && k <= |rows| && (k < |rows| ==> rows[k].id == id)
    && forall i :: 0 <= i < |rows| && i != k ==> rows[i].id != id
  }

  lemma StandsWhere(rows: seq<Record>, id: string) returns (k: nat)
    requires NoDup(Ids(rows))
    ensures Stands(rows, id, k) && k == Position(rows, id)
  {
    k := Position(rows, id);
    forall i | 0 <= i < |rows| && i != k ensures rows[i].id != id {
      if rows[i].id == id {
        FoundAt(rows, i);
      }
    }
  }

  // A change of status refuses an unknown status, then an unknown memory, without a trace; otherwise it replaces
  // that memory where it stands, answers it, rewrites it on disk and logs the change.
  lemma StatusSetExactly(s: State, id: string, status: string, at: string) returns (k: nat)
    requires Inv(s)
    ensures Stands(s.rows, id, k)
    ensures var step := DoSetStatus(s, id, status, at);
            if status !in {"candidate", "active", "archived", "rejected"} then step == Step(s, [], BadValue)
            else if k == |s.rows| then step == Step(s, [], NoSuchMemory)
            else
              var r := s.rows[k].(status := status, updatedAt := at);
              var e := Event(s.rows[k].namespace, at, StatusChanged(id, s.rows[k].status, status));
              step == Step(State(s.rows[k := r], s.index, s.events + [e]), [Update(r), Emit(e)], Stored(r))
  {
    k := StandsWhere(s.rows, id);
  }

  lemma ConfidenceSetExactly(s: State, id: string, confidence: real, at: string) returns (k: nat)
    requires Inv(s)
    ensures Stands(s.rows, id, k)
    ensures var step := DoSetConfidence(s, id, confidence, at);
            if confidence < 0.0 || confidence > 1.0 then step == Step(s, [], BadValue)
            else if k == |s.rows| then step == Step(s, [], NoSuchMemory)
            else
              var r := s.rows[k].(confidence := confidence, updatedAt := at);
              var e := Event(s.rows[k].namespace, at, ConfidenceChanged(id, s.rows[k].confidence, confidence));
              step == Step(State(s.rows[k := r], s.index, s.events + [e]), [Update(r), Emit(e)], Stored(r))
  {
    k := StandsWhere(s.rows, id);
  }

  lemma DropOne(rows: seq<Record>, id: string, k: nat)
    requires Stands(rows, id, k)
    ensures Drop(rows, id) == if k < |rows| then rows[..k] + rows[k + 1..] else rows
  {
    if k < |rows| {
      SplitSeq(rows, k);
      assert rows == rows[..k] + ([rows[k]] + rows[k + 1..]);
      FilterAppend(NotId(id), rows[..k], [rows[k]] + rows[k + 1..]);
      FilterAppend(NotId(id), [rows[k]], rows[k + 1..]);
      FilterAll(NotId(id), rows[..k]);
      FilterAll(NotId(id), rows[k + 1..]);
      FilterNone(NotId(id), [rows[k]]);
    } else {
      FilterAll(NotId(id), rows);
    }
  }

  // Forgetting says whether there was such a memory; if so it is gone, from the disk too, and that is logged.
  lemma ForgottenExactly(s: State, id: string, at: string) returns (k: nat)
    requires Inv(s)
    ensures Stands(s.rows, id, k)
    ensures var step := DoForget(s, id, at);
            if k == |s.rows| then step == Step(s, [], Removed(false))
            else
              var e := Event(s.rows[k].namespace, at, Forgot(id));
              && step.reply == Removed(true) && step.actions == [Erase(id), Emit(e)]
              && step.state.rows == s.rows[..k] + s.rows[k + 1..] && step.state.events == s.events + [e]
  {
    k := StandsWhere(s.rows, id);
    DropOne(s.rows, id, k);
  }

  // An accepted memory is stored last, under the drawn id and the clock's time; a forgotten one is gone.
  lemma AddedAndForgotten(cfg: Config, s: State, m: Record, id: string, at: string)
    requires Inv(s) && (Review(m, cfg).Accepted? ==> id !in Ids(s.rows))
    ensures Review(m, cfg).Accepted? ==>
              var r := Review(m, cfg).record.(id := id, createdAt := at, updatedAt := at);
              DoAdd(cfg, s, m, id, at).state.rows == s.rows + [r] && Lookup(s.rows + [r], id) == Some(r)
    ensures Review(m, cfg).Denied? ==> DoAdd(cfg, s, m, id, at).state.rows == s.rows
    ensures Lookup(DoForget(s, id, at).state.rows, id) == None
  {
    if Review(m, cfg).Accepted? {
      PutIsFound(s.rows, Review(m, cfg).record.(id := id, createdAt := at, updatedAt := at));
    }
    IdsDrop(s.rows, id);
  }

  // ----- Audit log -----

  // The statuses the audit log tells of: what was written, last changed, and not forgotten.
  function StatusesFrom(events: seq<Event>): map<string, string> {
    if events == [] then map[]
    else
      var m := StatusesFrom(events[..|events| - 1]);
      match events[|events| - 1].detail
      case Wrote(id, _, status) => m[id := status]
      case StatusChanged(id, _, to) => m[id := to]
      case Forgot(id) => m - {id}
      case _ => m
  }

  function IsWrite(e: Event): int {
    if e.detail.Wrote? then 1 else 0
  }

  function IsForget(e: Event): int {
    if e.detail.Forgot? then 1 else 0
  }

  function StatusMap(rows: seq<Record>): map<string, string> {
    map id | id in Ids(rows) :: Lookup(rows, id).value.status
  }

  ghost predicate Audited(s: State) {
    && StatusesFrom(s.events) == StatusMap(s.rows)
    && |s.rows| == Sum(IsWrite, s.events) - Sum(IsForget, s.events)
  }

  lemma EventsGrowByOne(events: seq<Event>, e: Event)
    ensures (events + [e])[..|events|] == events
    ensures Sum(IsWrite, events + [e]) == Sum(IsWrite, events) + IsWrite(e)
    ensures Sum(IsForget, events + [e]) == Sum(IsForget, events) + IsForget(e)
  {
    assert (events + [e])[..|events + [e]| - 1] == events;
  }

  lemma StatusAt(rows: seq<Record>, i: nat)
    requires NoDup(Ids(rows)) && i < |rows|
    ensures rows[i].id in StatusMap(rows) && StatusMap(rows)[rows[i].id] == rows[i].status
  {
    FoundAt(rows, i);
    assert Ids(rows)[i] == rows[i].id;
  }

  // A status map is fixed by what it holds for each row.
  lemma StatusMapIs(rows: seq<Record>, m: map<string, string>)
    requires NoDup(Ids(rows))
    requires forall id :: id in m <==> id in Ids(rows)
    requires forall i :: 0 <= i < |rows| ==> rows[i].id in m && m[rows[i].id] == rows[i].status
    ensures m == StatusMap(rows)
  {
    forall id | id in Ids(rows) ensures m[id] == StatusMap(rows)[id] {
      var i :| 0 <= i < |rows| && Ids(rows)[i] == id;
      StatusAt(rows, i);
    }
  }

  lemma AppendStatus(rows: seq<Record>, r: Record)
    requires NoDup(Ids(rows)) && r.id !in Ids(rows)
    ensures StatusMap(rows + [r]) == StatusMap(rows)[r.id := r.status]
  {
    IdsUnderAppend(rows, r, "");
    assert NoDup(Ids(rows + [r]));
    forall i | 0 <= i < |rows| ensures StatusMap(rows)[rows[i].id] == rows[i].status && rows[i].id != r.id {
      StatusAt(rows, i);
      assert Ids(rows)[i] in Ids(rows);
    }
    StatusMapIs(rows + [r], StatusMap(rows)[r.id := r.status]);
  }

  lemma ReplaceStatus(rows: seq<Record>, i: nat, r: Record)
    requires NoDup(Ids(rows)) && i < |rows| && r.id == rows[i].id
    ensures StatusMap(rows[i := r]) == StatusMap(rows)[r.id := r.status]
  {
    assert Ids(rows[i := r]) == Ids(rows);
    assert Ids(rows)[i] == r.id;
    forall j | 0 <= j < |rows| && j != i ensures StatusMap(rows)[rows[j].id] == rows[j].status && rows[j].id != r.id {
      StatusAt(rows, j);
      assert Ids(rows)[j] != Ids(rows)[i];
    }
    StatusMapIs(rows[i := r], StatusMap(rows)[r.id := r.status]);
  }

  lemma DropStatus(rows: seq<Record>, id: string)
    requires NoDup(Ids(rows)) && id in Ids(rows)
    ensures StatusMap(Drop(rows, id)) == StatusMap(rows) - {id}
    ensures |Drop(rows, id)| == |rows| - 1
  {
    IdsDrop(rows, id);
    FilterNoDup(Differs(id), Ids(rows));
    var kept := Drop(rows, id);
    forall i | 0 <= i < |kept| ensures kept[i].id != id && StatusMap(rows)[kept[i].id] == kept[i].status {
      assert kept[i] in kept;
      var j :| 0 <= j < |rows| && rows[j] == kept[i];
      StatusAt(rows, j);
    }
    StatusMapIs(kept, StatusMap(rows) - {id});
    RemoveFirstIsFilter(Ids(rows), id);
    RemoveFirstLength(Ids(rows), id);
  }

  lemma {:induction false} RemoveFirstLength(s: seq<string>, x: string)
    requires x in s
    ensures |RemoveFirst(s, x)| == |s| - 1
  {
    if x in s[..|s| - 1] {
      RemoveFirstLength(s[..|s| - 1], x);
    }
  }

  // A logged change keeps the audit exact when the event tells of it.
  lemma LoggedKeepsAudit(s: State, rows: seq<Record>, index: map<string, seq<string>>, e: Event)
    requires Audited(s)
    requires StatusesFrom(s.events + [e]) == StatusMap(rows)
    requires |rows| == |s.rows| + IsWrite(e) - IsForget(e)
    ensures Audited(State(rows, index, s.events + [e]))
  {
    EventsGrowByOne(s.events, e);
  }

  lemma UpdateIsLogged(s: State, r: Record, e: Event)
    requires Inv(s) && Audited(s) && r.id in Ids(s.rows)
    requires e.detail.StatusChanged? || e.detail.ConfidenceChanged?
    requires e.detail.StatusChanged? ==> e.detail.id == r.id && e.detail.to == r.status
    requires e.detail.ConfidenceChanged? ==> Lookup(s.rows, r.id).value.status == r.status
    ensures StatusesFrom(s.events + [e]) == StatusMap(s.rows)[r.id := r.status]
  {
    EventsGrowByOne(s.events, e);
    StatusAt(s.rows, Position(s.rows, r.id));
  }

  lemma UpdateKeepsAudit(s: State, r: Record, e: Event)
    requires Inv(s) && Audited(s) && r.id in Ids(s.rows)
    requires e.detail.StatusChanged? || e.detail.ConfidenceChanged?
    requires e.detail.StatusChanged? ==> e.detail.id == r.id && e.detail.to == r.status
    requires e.detail.ConfidenceChanged? ==> Lookup(s.rows, r.id).value.status == r.status
    ensures Audited(DoUpdate(s, r, e).state)
  {
    ReplaceStatus(s.rows, Position(s.rows, r.id), r);
    UpdateIsLogged(s, r, e);
    LoggedKeepsAudit(s, Put(s.rows, r), s.index, e);
  }

  lemma AddKeepsAudit(cfg: Config, s: State, m: Record, newId: string, at: string)
    requires Inv(s) && Audited(s) && newId !in Ids(s.rows)
    ensures Audited(DoAdd(cfg, s, m, newId, at).state)
  {
    var t := DoAdd(cfg, s, m, newId, at).state;
    var e := t.events[|s.events|];
    EventsGrowByOne(s.events, e);
    if Review(m, cfg).Accepted? {
      var r := Review(m, cfg).record.(id := newId, createdAt := at, updatedAt := at);
      AppendStatus(s.rows, r);
    }
    LoggedKeepsAudit(s, t.rows, t.index, e);
  }

  lemma ForgotStatus(events: seq<Event>, id: string, e: Event)
    requires e.detail == Forgot(id)
    ensures StatusesFrom(events + [e]) == StatusesFrom(events) - {id}
  {
    EventsGrowByOne(events, e);
  }

  lemma DropKeepsAudit(s: State, id: string, index: map<string, seq<string>>, e: Event)
    requires Inv(s) && Audited(s) && id in Ids(s.rows) && e.detail == Forgot(id)
    ensures Audited(State(Drop(s.rows, id), index, s.events + [e]))
  {
    DropStatus(s.rows, id);
    ForgotStatus(s.events, id, e);
    LoggedKeepsAudit(s, Drop(s.rows, id), index, e);
  }

  lemma ForgetKeepsAudit(s: State, id: string, at: string)
    requires Inv(s) && Audited(s)
    ensures Audited(DoForget(s, id, at).state)
  {
    if Position(s.rows, id) < |s.rows| {
      var r := s.rows[Position(s.rows, id)];
      DropKeepsAudit(s, id, DoForget(s, id, at).state.index, Event(r.namespace, at, Forgot(id)));
    }
  }

  lemma QueryKeepsAudit(cfg: Config, s: State, q: Request, clock: string, at: string)
    requires Inv(s) && Audited(s)
    ensures Audited(DoQuery(cfg, s, q, clock, at).state)
  {
    QueryIsScan(cfg, s, q, clock, at);
    var t := DoQuery(cfg, s, q, clock, at).state;
    if t != s {
      var e := t.events[|s.events|];
      EventsGrowByOne(s.events, e);
    }
  }

  lemma DoKeepsAudit(cfg: Config, s: State, op: Op)
    requires Inv(s) && Audited(s) && FreshOp(op, set id | id in Ids(s.rows))
    ensures Audited(Do(cfg, s, op).state)
  {
    match op
    case Add(m, newId, at) => AddKeepsAudit(cfg, s, m, newId, at);
    case SetStatus(id, status, at) =>
      if status in MEMORY_STATUSES && Lookup(s.rows, id).Some? {
        var r := Lookup(s.rows, id).value;
        UpdateKeepsAudit(s, r.(status := status, updatedAt := at),
                         Event(r.namespace, at, StatusChanged(id, r.status, status)));
      }
    case SetConfidence(id, confidence, at) =>
      if 0.0 <= confidence <= 1.0 && Lookup(s.rows, id).Some? {
        var r := Lookup(s.rows, id).value;
        UpdateKeepsAudit(s, r.(confidence := confidence, updatedAt := at),
                         Event(r.namespace, at, ConfidenceChanged(id, r.confidence, confidence)));
      }
    case Forget(id, at) => ForgetKeepsAudit(s, id, at);
    case Query(q, clock, at) => QueryKeepsAudit(cfg, s, q, clock, at);
  }

  lemma DoAppendsEvents(cfg: Config, s: State, op: Op)
    ensures s.events <= Do(cfg, s, op).state.events
  {
  }

  // The audit log of any run determines which memories live and in what status.
  lemma {:induction false} AuditDeterminesStatus(cfg: Config, ops: seq<Op>)
    requires Lawful(cfg) && Legal(ops)
    ensures Audited(Run(cfg, EMPTY, ops))
  {
    if ops != [] {
      var init, op := ops[..|ops| - 1], ops[|ops| - 1];
      AuditDeterminesStatus(cfg, init);
      RunKeepsInv(cfg, init);
      DoKeepsAudit(cfg, Run(cfg, EMPTY, init), op);
    }
  }

  // Events are only ever appended: what a run has logged is a prefix of what any longer run logs.
  lemma {:induction false} EventsAppendOnly(cfg: Config, ops: seq<Op>, more: seq<Op>)
    ensures Run(cfg, EMPTY, ops).events <= Run(cfg, EMPTY, ops + more).events
  {
    if more == [] {
      assert ops + more == ops;
    } else {
      var rest := more[..|more| - 1];
      assert (ops + more)[..|ops + more| - 1] == ops + rest;
      EventsAppendOnly(cfg, ops, rest);
      DoAppendsEvents(cfg, Run(cfg, EMPTY, ops + rest), more[|more| - 1]);
    }
  }
}
