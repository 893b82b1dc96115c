/** The SQLite backend: a mutable table of memories, and that reading it back rebuilds the store. */
module Table {
  import opened Seqs
  import opened Sorting
  import opened Models
  import opened Policy
  import opened StoreModel
  import opened StoreLaws
  import Journal

  // The columns of one row; NULL timestamps are "".
  datatype Row = Row(
    id: string, tenant: string, project: string, title: string, body: string, kind: string,
    tags: seq<string>, sourceKind: string, sourceRef: string, sourceNote: Option<string>,
    links: seq<(string, string)>, confidence: real, status: string, createdAt: string,
    updatedAt: string, thread: Option<string>, expiresAt: Option<string>)

  datatype Slot = Slot(rowid: nat, row: Row)
  datatype EventRow = EventRow(tenant: string, project: string, at: string, detail: Detail)

  // A table is held in insertion order; queries that want an order must sort.
  datatype Db = Db(memories: seq<Slot>, events: seq<EventRow>)

  const NO_ROWS := Db([], [])

  function LinkColumns(l: Link): (string, string) {
    (l.rel, l.targetId)
  }

  function LinkOfColumns(c: (string, string)): Link {
    Link(c.0, c.1)
  }

  function MemoryToRow(m: Record): Row {
    Row(m.id, m.namespace.tenant, m.namespace.project, m.title, m.body, m.kind, m.tags,
        m.source.kind, m.source.ref, m.source.note, Map(LinkColumns, m.links), m.confidence, m.status,
        m.createdAt, m.updatedAt, m.thread, m.expiresAt)
  }

  function RowToMemory(r: Row): Option<Record> {
    Construct(Record(Namespace(r.tenant, r.project), r.title, r.body,
                     Source(r.sourceKind, r.sourceRef, r.sourceNote), r.kind, r.tags,
                     Map(LinkOfColumns, r.links), r.confidence, r.status, r.id, r.createdAt,
                     if r.updatedAt != "" then r.updatedAt else r.createdAt, r.thread, r.expiresAt))
  }

  // What a written memory is read back as: an empty update time gives way to the creation time.
  function ReadBack(m: Record): Record {
    if m.updatedAt != "" then m else m.(updatedAt := m.createdAt)
  }

  // A memory that reading back leaves as it is.
  predicate Settled(m: Record) {
    m.updatedAt != "" || m.createdAt == ""
  }

  lemma RowRoundTrip(m: Record)
    requires WellFormed(m)
    ensures RowToMemory(MemoryToRow(m)) == Some(ReadBack(m)) && WellFormed(ReadBack(m))
    ensures RowToMemory(MemoryToRow(m)) == Some(m) <==> Settled(m)
  {
    assert Map(LinkOfColumns, Map(LinkColumns, m.links)) == m.links;
    WellFormedUpdates(m, m.id, m.createdAt, m.createdAt, m.status, m.confidence);
  }

  // ----- Statements -----

  function NotRow(id: string): Slot -> bool {
    (s: Slot) => s.row.id != id
  }

  function MaxRowid(slots: seq<Slot>): nat {
    if slots == [] then 0
    else
      var m, r := MaxRowid(slots[..|slots| - 1]), slots[|slots| - 1].rowid;
      if r > m then r else m
  }

  // INSERT OR REPLACE: the new row takes the largest rowid plus one, and a row with its id goes.
  function InsertRow(slots: seq<Slot>, row: Row): seq<Slot> {
    Filter(NotRow(row.id), slots) + [Slot(MaxRowid(slots) + 1, row)]
  }

  // UPDATE of three columns in the rows with the id.
  function SetColumns(id: string, status: string, confidence: real, updatedAt: string): Slot -> Slot {
    (s: Slot) =>
      if s.row.id == id
      then s.(row := s.row.(status := status, confidence := confidence, updatedAt := updatedAt)) else s
  }

  function Execute(db: Db, a: Action): Db {
    match a
    case Persist(r) => db.(memories := InsertRow(db.memories, MemoryToRow(r)))
    case Update(r) => db.(memories := Map(SetColumns(r.id, r.status, r.confidence, r.updatedAt), db.memories))
    case Erase(id) => db.(memories := Filter(NotRow(id), db.memories))
    case Emit(e) => db.(events := db.events + [EventRow(e.namespace.tenant, e.namespace.project, e.at, e.detail)])
  }

  function ExecuteAll(db: Db, actions: seq<Action>): Db {
    if actions == [] then db
    else Execute(ExecuteAll(db, actions[..|actions| - 1]), actions[|actions| - 1])
  }

  // ----- Reopening -----

  predicate ByRowid(a: Slot, b: Slot) {
    a.rowid <= b.rowid
  }

  function IndexSlots(slots: seq<Slot>): State {
    if slots == [] then EMPTY
    else
      var s, m := IndexSlots(slots[..|slots| - 1]), RowToMemory(slots[|slots| - 1].row);
      if m.Some? then Indexed(s, m.value) else s
  }

  function EventOfRow(r: EventRow): Event {
    Event(Namespace(r.tenant, r.project), r.at, r.detail)
  }

  function Load(db: Db): State {
    IndexSlots(Sort(ByRowid, db.memories)).(events := Map(EventOfRow, db.events))
  }

  // ----- The table mirrors the live rows -----

  ghost predicate Ascending(slots: seq<Slot>) {
    forall i, j :: 0 <= i < j < |slots| ==> slots[i].rowid < slots[j].rowid
  }

  ghost predicate Mirrors(slots: seq<Slot>, rows: seq<Record>) {
    && Ascending(slots)
    && |slots| == |rows|
    && forall i :: 0 <= i < |rows| ==> slots[i].row == MemoryToRow(rows[i])
  }

  lemma {:induction false} MaxRowidBounds(slots: seq<Slot>)
    ensures forall i :: 0 <= i < |slots| ==> slots[i].rowid <= MaxRowid(slots)
  {
    if slots != [] {
      MaxRowidBounds(slots[..|slots| - 1]);
    }
  }

  lemma SelectInOrder(slots: seq<Slot>)
    requires Ascending(slots)
    ensures Sort(ByRowid, slots) == slots
  {
    SortSorts(ByRowid, slots);
    SortPermutes(ByRowid, slots);
    SortMembers(ByRowid, slots);
    SortedUnique(ByRowid, slots, Sort(ByRowid, slots));
  }

  lemma {:induction false} IndexSlotsMirrors(slots: seq<Slot>, rows: seq<Record>)
    requires Mirrors(slots, rows) && RowsValid(rows)
    ensures Inv(IndexSlots(slots)) && IndexSlots(slots).rows == Map(ReadBack, rows)
  {
    if rows == [] {
      Journal.RunKeepsInvEmpty();
    } else {
      var init, last := rows[..|rows| - 1], rows[|rows| - 1];
      RowsValidPrefix(rows);
      IndexSlotsMirrors(slots[..|slots| - 1], init);
      RowRoundTrip(last);
      MapLast(ReadBack, rows);
      SameIds(init);
      IndexedKeepsInv(IndexSlots(slots[..|slots| - 1]), ReadBack(last));
    }
  }

  lemma SameIds(rows: seq<Record>)
    ensures Ids(Map(ReadBack, rows)) == Ids(rows)
  {
  }

  lemma RowsValidPrefix(rows: seq<Record>)
    requires RowsValid(rows) && rows != []
    ensures var init, last := rows[..|rows| - 1], rows[|rows| - 1];
            RowsValid(init) && last.id !in Ids(init) && last in rows && rows == init + [last]
  {
    IdsPrefix(rows);
    MembersOfPrefix(rows);
  }

  lemma IdsPrefix(rows: seq<Record>)
    requires NoDup(Ids(rows)) && rows != []
    ensures var init := rows[..|rows| - 1];
            NoDup(Ids(init)) && rows[|rows| - 1].id !in Ids(init)
  {
    MapLast(IdOf, rows);
    assert Ids(rows)[..|rows| - 1] == Ids(rows[..|rows| - 1]);
    NoDupPrefix(Ids(rows));
  }

  lemma MembersOfPrefix<T>(s: seq<T>)
    requires s != []
    ensures s == s[..|s| - 1] + [s[|s| - 1]] && s[|s| - 1] in s
    ensures forall x :: x in s[..|s| - 1] ==> x in s
  {
  }

  lemma MirrorsAppend(slots: seq<Slot>, rows: seq<Record>, slot: Slot, r: Record)
    requires Mirrors(slots, rows) && slot.row == MemoryToRow(r)
    requires forall i :: 0 <= i < |slots| ==> slots[i].rowid < slot.rowid
    ensures Mirrors(slots + [slot], rows + [r])
  {
  }

  lemma InsertMirrors(slots: seq<Slot>, rows: seq<Record>, r: Record)
    requires Mirrors(slots, rows) && r.id !in Ids(rows)
    ensures Mirrors(InsertRow(slots, MemoryToRow(r)), rows + [r])
  {
    MaxRowidBounds(slots);
    forall s | s in slots ensures NotRow(r.id)(s) {
      var i :| 0 <= i < |slots| && slots[i] == s;
      assert Ids(rows)[i] == s.row.id;
    }
    FilterAll(NotRow(r.id), slots);
  }

  lemma UpdateMirrors(slots: seq<Slot>, rows: seq<Record>, i: nat, r: Record)
    requires Mirrors(slots, rows) && NoDup(Ids(rows)) && i < |rows| && r.id == rows[i].id
    requires r == rows[i].(status := r.status, confidence := r.confidence, updatedAt := r.updatedAt)
    ensures Mirrors(Map(SetColumns(r.id, r.status, r.confidence, r.updatedAt), slots), rows[i := r])
  {
    forall j | 0 <= j < |rows| && j != i ensures rows[j].id != r.id {
      assert Ids(rows)[j] != Ids(rows)[i];
    }
  }

  lemma {:induction false} EraseMirrors(slots: seq<Slot>, rows: seq<Record>, id: string)
    requires Mirrors(slots, rows)
    ensures Mirrors(Filter(NotRow(id), slots), Drop(rows, id))
    ensures forall s :: s in Filter(NotRow(id), slots) ==> s in slots
  {
    if rows != [] {
      var n := |rows| - 1;
      var kept := Filter(NotRow(id), slots[..n]);
      EraseMirrors(slots[..n], rows[..n], id);
      forall i | 0 <= i < |kept| ensures kept[i].rowid < slots[n].rowid {
        assert kept[i] in kept;
        var j :| 0 <= j < n && slots[..n][j] == kept[i];
      }
      MirrorsAppend(kept, Drop(rows[..n], id), slots[n], rows[n]);
    }
  }

  // ----- Whole runs -----

  function DbOf(cfg: Config, ops: seq<Op>): Db {
    ExecuteAll(NO_ROWS, Actions(cfg, EMPTY, ops))
  }

  ghost predicate Synced(db: Db, s: State) {
    Mirrors(db.memories, s.rows) && Map(EventOfRow, db.events) == s.events
  }

  lemma ExecuteOne(db: Db, a: Action)
    ensures ExecuteAll(db, [a]) == Execute(db, a)
  {
  }

  lemma ExecuteTwo(db: Db, a: Action, b: Action)
    ensures ExecuteAll(db, [a, b]) == Execute(Execute(db, a), b)
  {
    ExecuteAllSplit(db, [a], [b]);
    assert [a] + [b] == [a, b];
  }

  lemma {:induction false} ExecuteAllSplit(db: Db, a: seq<Action>, b: seq<Action>)
    ensures ExecuteAll(db, a + b) == ExecuteAll(ExecuteAll(db, a), b)
  {
    if b == [] {
      assert a + b == a;
    } else {
      assert (a + b)[..|a + b| - 1] == a + b[..|b| - 1];
      ExecuteAllSplit(db, a, b[..|b| - 1]);
    }
  }

  lemma EmitSynced(db: Db, s: State, e: Event)
    requires Synced(db, s)
    ensures Synced(Execute(db, Emit(e)), Logged(s, e))
  {
    var row := EventRow(e.namespace.tenant, e.namespace.project, e.at, e.detail);
    assert Map(EventOfRow, db.events + [row]) == Map(EventOfRow, db.events) + [e];
  }

  lemma AddSynced(cfg: Config, db: Db, s: State, m: Record, newId: string, at: string)
    requires Inv(s) && Synced(db, s) && newId !in Ids(s.rows)
    ensures Synced(ExecuteAll(db, DoAdd(cfg, s, m, newId, at).actions), DoAdd(cfg, s, m, newId, at).state)
  {
    if Review(m, cfg).Accepted? {
      var r := Review(m, cfg).record.(id := newId, createdAt := at, updatedAt := at);
      var e := Event(r.namespace, at, Wrote(newId, r.title, r.status));
      InsertMirrors(db.memories, s.rows, r);
      EmitSynced(Execute(db, Persist(r)), Indexed(s, r), e);
      ExecuteTwo(db, Persist(r), Emit(e));
    } else {
      var e := Event(m.namespace, at, Rejected(Review(m, cfg).reason));
      EmitSynced(db, s, e);
      ExecuteOne(db, Emit(e));
    }
  }

  lemma UpdateSynced(db: Db, s: State, i: nat, r: Record, e: Event)
    requires Inv(s) && Synced(db, s) && i < |s.rows| && r.id == s.rows[i].id
    requires r == s.rows[i].(status := r.status, confidence := r.confidence, updatedAt := r.updatedAt)
    ensures Synced(ExecuteAll(db, DoUpdate(s, r, e).actions), DoUpdate(s, r, e).state)
  {
    FoundAt(s.rows, i);
    UpdateMirrors(db.memories, s.rows, i, r);
    EmitSynced(Execute(db, Update(r)), s.(rows := Put(s.rows, r)), e);
    ExecuteTwo(db, Update(r), Emit(e));
  }

  lemma ForgetSynced(db: Db, s: State, id: string, at: string)
    requires Inv(s) && Synced(db, s)
    ensures Synced(ExecuteAll(db, DoForget(s, id, at).actions), DoForget(s, id, at).state)
  {
    if Position(s.rows, id) < |s.rows| {
      var r := s.rows[Position(s.rows, id)];
      var e := Event(r.namespace, at, Forgot(id));
      EraseMirrors(db.memories, s.rows, id);
      EmitSynced(Execute(db, Erase(id)), State(Drop(s.rows, id), DoForget(s, id, at).state.index, s.events), e);
      ExecuteTwo(db, Erase(id), Emit(e));
    }
  }

  // Every operation on fresh input keeps the table in step with the live store.
  lemma StepSynced(cfg: Config, db: Db, s: State, op: Op)
    requires Inv(s) && Synced(db, s) && FreshOp(op, set id | id in Ids(s.rows))
    ensures Synced(ExecuteAll(db, Do(cfg, s, op).actions), Do(cfg, s, op).state)
  {
    match op
    case Add(m, newId, at) => AddSynced(cfg, db, s, m, newId, at);
    case SetStatus(id, status, at) =>
      if status in MEMORY_STATUSES && Lookup(s.rows, id).Some? {
        var r := Lookup(s.rows, id).value;
        UpdateSynced(db, s, Position(s.rows, id), r.(status := status, updatedAt := at),
                     Event(r.namespace, at, StatusChanged(id, r.status, status)));
      }
    case SetConfidence(id, confidence, at) =>
      if 0.0 <= confidence <= 1.0 && Lookup(s.rows, id).Some? {
        var r := Lookup(s.rows, id).value;
        UpdateSynced(db, s, Position(s.rows, id), r.(confidence := confidence, updatedAt := at),
                     Event(r.namespace, at, ConfidenceChanged(id, r.confidence, confidence)));
      }
    case Forget(id, at) => ForgetSynced(db, s, id, at);
    case Query(q, clock, at) =>
      QueryIsScan(cfg, s, q, clock, at);
      if !QueryRefused(s, q) {
        var e := Do(cfg, s, op).actions[0].event;
        ExecuteOne(db, Emit(e));
        EmitSynced(db, s, e);
      }
  }

  lemma {:induction false} RunSynced(cfg: Config, ops: seq<Op>)
    requires Lawful(cfg) && Legal(ops)
    ensures Synced(DbOf(cfg, ops), Run(cfg, EMPTY, ops))
  {
    if ops != [] {
      var init, op := ops[..|ops| - 1], ops[|ops| - 1];
      RunSynced(cfg, init);
      RunKeepsInv(cfg, init);
      var s := Run(cfg, EMPTY, init);
      ExecuteAllSplit(NO_ROWS, Actions(cfg, EMPTY, init), Do(cfg, s, op).actions);
      StepSynced(cfg, DbOf(cfg, init), s, op);
    }
  }

  // Opening a table in step with some live store gives that store's memories as they are read back: the
  // same store, in step again, exactly when every memory is settled.
  lemma LoadRestores(db: Db, s: State)
    requires Inv(s) && Synced(db, s)
    ensures Inv(Load(db)) && Load(db).rows == Map(ReadBack, s.rows) && Load(db).events == s.events
    ensures Journal.SameStore(Load(db), s) <==> forall r :: r in s.rows ==> Settled(r)
    ensures Synced(db, Load(db)) <==> forall r :: r in s.rows ==> Settled(r)
  {
    SelectInOrder(db.memories);
    IndexSlotsMirrors(db.memories, s.rows);
    SettledRows(s.rows);
    if Map(ReadBack, s.rows) != s.rows {
      UnsettledDiffers(db.memories, s.rows);
    }
  }

  lemma SettledRows(rows: seq<Record>)
    ensures Map(ReadBack, rows) == rows <==> forall r :: r in rows ==> Settled(r)
  {
    if Map(ReadBack, rows) == rows {
      forall r | r in rows ensures Settled(r) {
        var i :| 0 <= i < |rows| && rows[i] == r;
        assert Map(ReadBack, rows)[i] == r;
      }
    } else {
      var i :| 0 <= i < |rows| && Map(ReadBack, rows)[i] != rows[i];
      assert rows[i] in rows;
    }
  }

  lemma UnsettledDiffers(slots: seq<Slot>, rows: seq<Record>)
    requires Mirrors(slots, rows) && Map(ReadBack, rows) != rows
    ensures !Mirrors(slots, Map(ReadBack, rows))
  {
    var i :| 0 <= i < |rows| && Map(ReadBack, rows)[i] != rows[i];
    assert slots[i].row.updatedAt == "" && Map(ReadBack, rows)[i].updatedAt == rows[i].createdAt != "";
  }

  // After any run from an empty database, reading the table back rebuilds the live store but for empty
  // update times, and rebuilds it exactly if and only if every live memory is settled.
  lemma ReopenRestores(cfg: Config, ops: seq<Op>)
    requires Lawful(cfg) && Legal(ops)
    ensures var reopened, live := Load(DbOf(cfg, ops)), Run(cfg, EMPTY, ops);
            && reopened.rows == Map(ReadBack, live.rows) && reopened.events == live.events
            && (Journal.SameStore(reopened, live) <==> forall r :: r in live.rows ==> Settled(r))
  {
    RunSynced(cfg, ops);
    RunKeepsInv(cfg, ops);
    LoadRestores(DbOf(cfg, ops), Run(cfg, EMPTY, ops));
  }

  // The clock was never empty when a status or confidence changed.
  predicate Timed(ops: seq<Op>) {
    forall op :: op in ops && (op.SetStatus? || op.SetConfidence?) ==> op.at != ""
  }

  // Such a run leaves every memory settled, whatever the clock said at other times.
  lemma {:induction false} TimedRunsSettle(cfg: Config, ops: seq<Op>)
    requires Lawful(cfg) && Legal(ops) && Timed(ops)
    ensures forall r :: r in Run(cfg, EMPTY, ops).rows ==> Settled(r)
  {
    if ops != [] {
      var init, op := ops[..|ops| - 1], ops[|ops| - 1];
      assert op in ops && forall x :: x in init ==> x in ops;
      TimedRunsSettle(cfg, init);
      RunKeepsInv(cfg, init);
      StepSettles(cfg, Run(cfg, EMPTY, init), op);
    }
  }

  lemma StepSettles(cfg: Config, s: State, op: Op)
    requires Inv(s) && (forall r :: r in s.rows ==> Settled(r)) && Timed([op])
    ensures forall r :: r in Do(cfg, s, op).state.rows ==> Settled(r)
  {
    match op
    case Add(m, newId, at) =>
      if Review(m, cfg).Accepted? {
        PutSettles(s.rows, Review(m, cfg).record.(id := newId, createdAt := at, updatedAt := at));
      }
    case SetStatus(id, status, at) =>
      assert op in [op];
      if Lookup(s.rows, id).Some? {
        PutSettles(s.rows, Lookup(s.rows, id).value.(status := status, updatedAt := at));
      }
    case SetConfidence(id, confidence, at) =>
      assert op in [op];
      if Lookup(s.rows, id).Some? {
        PutSettles(s.rows, Lookup(s.rows, id).value.(confidence := confidence, updatedAt := at));
      }
    case Forget(_, _) =>
    case Query(q, clock, at) => QueryIsScan(cfg, s, q, clock, at);
  }

  lemma PutSettles(rows: seq<Record>, r: Record)
    requires Settled(r) && forall x :: x in rows ==> Settled(x)
    ensures forall x :: x in Put(rows, r) ==> Settled(x)
  {
    assert forall x :: x in Put(rows, r) ==> x in rows || x == r;
  }

  // The log and the table, written by the same operations, reopen to the same store under the same
  // condition; the events always agree.
  lemma BackendsAgree(cfg: Config, ops: seq<Op>)
    requires Lawful(cfg) && Legal(ops)
    ensures var log, table := Journal.Load(Journal.FilesOf(cfg, ops)), Load(DbOf(cfg, ops));
            && log.events == table.events
            && (Journal.SameStore(log, table) <==> forall r :: r in Run(cfg, EMPTY, ops).rows ==> Settled(r))
  {
    ReopenRestores(cfg, ops);
    Journal.ReopenRestores(cfg, ops);
  }

  // ----- Any table -----

  // What the schema and the loading loops ask of a table: a key for every row, and namespaces for the events.
  ghost predicate Openable(db: Db) {
    && (forall i :: 0 <= i < |db.memories| ==> db.memories[i].row.id != "")
    && NoDup(Map(KeyOfSlot, db.memories))
    && forall e :: e in db.events ==> Namespace(e.tenant, e.project).Valid()
  }

  function KeyOfSlot(s: Slot): string {
    s.row.id
  }

  lemma {:induction false} IndexSlotsValid(slots: seq<Slot>)
    requires NoDup(Map(KeyOfSlot, slots)) && forall s :: s in slots ==> s.row.id != ""
    ensures Inv(IndexSlots(slots))
    ensures forall id :: id in Ids(IndexSlots(slots).rows) ==> id in Map(KeyOfSlot, slots)
  {
    if slots == [] {
      Journal.RunKeepsInvEmpty();
    } else {
      var init, last := slots[..|slots| - 1], slots[|slots| - 1];
      MapLast(KeyOfSlot, slots);
      assert Map(KeyOfSlot, slots)[..|init|] == Map(KeyOfSlot, init);
      NoDupPrefix(Map(KeyOfSlot, slots));
      IndexSlotsValid(init);
      if RowToMemory(last.row).Some? {
        IndexReadable(IndexSlots(init), last.row);
      }
    }
  }

  lemma IndexReadable(s: State, row: Row)
    requires Inv(s) && RowToMemory(row).Some? && row.id != "" && row.id !in Ids(s.rows)
    ensures Inv(Indexed(s, RowToMemory(row).value))
    ensures Ids(Indexed(s, RowToMemory(row).value).rows) == Ids(s.rows) + [row.id]
  {
    var m := RowToMemory(row).value;
    var raw :| Construct(raw) == Some(m);
    ConstructIdempotent(raw);
    IndexedKeepsInv(s, m);
    IdsUnderAppend(s.rows, m, "");
  }

  // Any such table opens to a valid store, whatever its order and however many rows cannot be read.
  lemma LoadIsValid(db: Db)
    requires Openable(db)
    ensures Inv(Load(db))
    ensures forall id :: id in Ids(Load(db).rows) ==> id in Map(KeyOfSlot, db.memories)
  {
    var slots := Sort(ByRowid, db.memories);
    SortPermutes(ByRowid, db.memories);
    SortMembers(ByRowid, db.memories);
    MapPermuted(KeyOfSlot, db.memories, slots);
    NoDupPermuted(Map(KeyOfSlot, db.memories), Map(KeyOfSlot, slots));
    PermutedMembers(Map(KeyOfSlot, db.memories), Map(KeyOfSlot, slots));
    IndexSlotsValid(slots);
  }
}
