/** The append-only JSON Lines backend: what is written, how it is replayed, and that replay rebuilds the store. */
module Journal {
  import opened Seqs
  import opened Models
  import opened Policy
  import opened Serialize
  import opened StoreModel
  import opened StoreLaws

  // Junk is a line that does not decode, such as a torn one.
  datatype Line = Junk | Tombstone(id: string) | Entry(record: Wire)
  datatype EventLine = Torn | Audit(event: Event)

  // The lines of the two files. A file is open when its last line, which is not blank, lacks its newline:
  // a crash tore that line, or came right before the newline.
  datatype Files = Files(memories: seq<Line>, events: seq<EventLine>, openMemories: bool, openEvents: bool)

  const NO_FILES := Files([], [], false, false)

  predicate Closed(f: Files) {
    !f.openMemories && !f.openEvents
  }

  // _append_jsonl: what is written behind an open line joins it, and no two records decode as one.
  function Behind<L>(lines: seq<L>, open: bool, line: L, garbled: L): seq<L> {
    if open && lines != [] then lines[..|lines| - 1] + [garbled] else lines + [line]
  }

  function WithMemory(f: Files, line: Line): Files {
    f.(memories := Behind(f.memories, f.openMemories, line, Junk), openMemories := false)
  }

  function WithEvent(f: Files, line: EventLine): Files {
    f.(events := Behind(f.events, f.openEvents, line, Torn), openEvents := false)
  }

  // The line a hook appends to one of the two files.
  function Append(f: Files, a: Action): Files {
    match a
    case Persist(r) => WithMemory(f, Entry(MemoryToDict(r)))
    case Update(r) => WithMemory(f, Entry(MemoryToDict(r)))
    case Erase(id) => WithMemory(f, Tombstone(id))
    case Emit(e) => WithEvent(f, Audit(e))
  }

  function AppendAll(f: Files, actions: seq<Action>): Files {
    if actions == [] then f
    else Append(AppendAll(f, actions[..|actions| - 1]), actions[|actions| - 1])
  }

  // ----- Replay -----

  // The memory a line holds; none for lines that are skipped or delete.
  function Read(line: Line): Option<Record> {
    if line.Entry? && MemoryFromDict(line.record).Some? && MemoryFromDict(line.record).value.id != ""
    then MemoryFromDict(line.record) else None
  }

  // Last write wins, and a tombstone deletes.
  function Latest(lines: seq<Line>): map<string, Record> {
    if lines == [] then map[]
    else
      var m, line := Latest(lines[..|lines| - 1]), lines[|lines| - 1];
      if line.Tombstone? then m - {line.id}
      else if Read(line).Some? then m[Read(line).value.id := Read(line).value]
      else m
  }

  // The ids in the order in which they came to life.
  function Order(lines: seq<Line>): seq<string> {
    if lines == [] then []
    else
      var init, r := lines[..|lines| - 1], Read(lines[|lines| - 1]);
      if r.Some? && r.value.id !in Latest(init) then Order(init) + [r.value.id] else Order(init)
  }

  function IndexAll(order: seq<string>, latest: map<string, Record>): State {
    if order == [] then EMPTY
    else
      var s, id := IndexAll(order[..|order| - 1], latest), order[|order| - 1];
      if id in latest then Indexed(s, latest[id]) else s
  }

  lemma IndexNext(order: seq<string>, id: string, latest: map<string, Record>)
    ensures var s := IndexAll(order, latest);
            IndexAll(order + [id], latest) == if id in latest then Indexed(s, latest[id]) else s
  {
    assert (order + [id])[..|order|] == order;
  }

  function EventsIn(line: EventLine): seq<Event> {
    if line.Audit? && line.event.namespace.Valid() then [line.event] else []
  }

  function ReadEvents(lines: seq<EventLine>): seq<Event> {
    if lines == [] then [] else ReadEvents(lines[..|lines| - 1]) + EventsIn(lines[|lines| - 1])
  }

  function Load(f: Files): State {
    IndexAll(Order(f.memories), Latest(f.memories)).(events := ReadEvents(f.events))
  }

  // ----- What a replay yields, for any file contents -----

  function Alive(latest: map<string, Record>): string -> bool {
    (id: string) => id in latest
  }

  ghost predicate Holds(rows: seq<Record>, latest: map<string, Record>) {
    forall r :: r in rows ==> r.id in latest && latest[r.id] == r
  }

  ghost predicate Sound(latest: map<string, Record>) {
    forall id :: id in latest ==> latest[id].id == id && id != "" && WellFormed(latest[id])
  }

  lemma {:induction false} LatestSound(lines: seq<Line>)
    ensures Sound(Latest(lines))
  {
    if lines != [] {
      LatestSound(lines[..|lines| - 1]);
      var line := lines[|lines| - 1];
      if Read(line).Some? {
        ReadIsWellFormed(line.record);
      }
    }
  }

  // Indexing a row that is already there changes neither the rows nor any index entry.
  lemma ReindexIsIdle(s: State, r: Record)
    requires Inv(s) && r in s.rows
    ensures Inv(Indexed(s, r)) && Indexed(s, r).rows == s.rows
  {
    var i :| 0 <= i < |s.rows| && s.rows[i] == r;
    FoundAt(s.rows, i);
    var t := Indexed(s, r);
    OtherKeysLack(s.rows, r, r.namespace.AsKey());
    assert t.rows == s.rows;
    forall key ensures IndexAt(t.index, key) == IdsUnder(t.rows, key) {}
  }

  lemma {:induction false} IndexAllValid(order: seq<string>, latest: map<string, Record>)
    requires Sound(latest)
    ensures var s := IndexAll(order, latest);
            && Inv(s) && Holds(s.rows, latest)
            && forall id :: id in Ids(s.rows) <==> id in order && id in latest
  {
    if order == [] {
      RunKeepsInvEmpty();
    } else {
      var init, id := order[..|order| - 1], order[|order| - 1];
      assert order == init + [id];
      IndexAllValid(init, latest);
      if id in latest {
        IndexOneInv(IndexAll(init, latest), latest, id);
      }
    }
  }

  lemma {:induction false} IndexAllIds(order: seq<string>, latest: map<string, Record>)
    requires Sound(latest) && NoDup(order)
    ensures Ids(IndexAll(order, latest).rows) == Filter(Alive(latest), order)
  {
    if order == [] {
      RunKeepsInvEmpty();
    } else {
      var init, id := order[..|order| - 1], order[|order| - 1];
      NoDupPrefix(order);
      IndexAllValid(init, latest);
      IndexAllIds(init, latest);
      if id in latest {
        IndexOneInv(IndexAll(init, latest), latest, id);
      }
    }
  }

  // Whatever the file holds, indexing its live ids in order satisfies the store's invariant.
  lemma IndexAllInv(order: seq<string>, latest: map<string, Record>)
    requires Sound(latest)
    ensures var s := IndexAll(order, latest);
            && Inv(s) && Holds(s.rows, latest)
            && forall id :: id in Ids(s.rows) <==> id in order && id in latest
    ensures NoDup(order) ==> Ids(IndexAll(order, latest).rows) == Filter(Alive(latest), order)
  {
    IndexAllValid(order, latest);
    if NoDup(order) {
      IndexAllIds(order, latest);
    }
  }

  lemma IndexOneInv(s: State, latest: map<string, Record>, id: string)
    requires Inv(s) && Sound(latest) && Holds(s.rows, latest) && id in latest
    ensures var t := Indexed(s, latest[id]);
            && Inv(t) && Holds(t.rows, latest)
            && Ids(t.rows) == if id in Ids(s.rows) then Ids(s.rows) else Ids(s.rows) + [id]
  {
    var r := latest[id];
    if id in Ids(s.rows) {
      var i := Position(s.rows, id);
      assert s.rows[i] in s.rows;
      ReindexIsIdle(s, r);
    } else {
      IndexedKeepsInv(s, r);
      IdsUnderAppend(s.rows, r, "");
    }
  }

  lemma RunKeepsInvEmpty()
    ensures Inv(EMPTY) && Ids(EMPTY.rows) == []
  {
    forall key ensures IndexAt(EMPTY.index, key) == IdsUnder(EMPTY.rows, key) {}
  }

  // A store opened on any two files, corrupt or not, has valid rows and an exact index.
  lemma LoadIsValid(f: Files)
    ensures Inv(Load(f))
  {
    LatestSound(f.memories);
    IndexAllInv(Order(f.memories), Latest(f.memories));
  }

  // Rows that hold the latest values are determined by their ids.
  lemma RowsFromIds(a: seq<Record>, b: seq<Record>, la: map<string, Record>, lb: map<string, Record>)
    requires Holds(a, la) && Holds(b, lb) && Ids(a) == Ids(b)
    requires forall id :: id in Ids(a) && id in la && id in lb ==> la[id] == lb[id]
    ensures a == b
  {
    assert |a| == |Ids(a)| && |b| == |Ids(b)|;
    forall i | 0 <= i < |a| ensures a[i] == b[i] {
      assert Ids(a)[i] == a[i].id && Ids(b)[i] == b[i].id;
      assert a[i] in a && b[i] in b && Ids(a)[i] in Ids(a);
    }
  }

  // ----- The log mirrors the live store -----

  ghost predicate Mirrors(lines: seq<Line>, rows: seq<Record>) {
    && NoDup(Order(lines))
    && Ids(rows) == Filter(Alive(Latest(lines)), Order(lines))
    && Holds(rows, Latest(lines))
  }

  // A log that mirrors the rows replays to exactly those rows, with their exact index.
  lemma MirrorReplays(f: Files, s: State)
    requires Mirrors(f.memories, s.rows) && Inv(s)
    ensures Load(f).rows == s.rows
    ensures forall key :: IndexAt(Load(f).index, key) == IndexAt(s.index, key)
  {
    var order, latest := Order(f.memories), Latest(f.memories);
    LatestSound(f.memories);
    IndexAllInv(order, latest);
    RowsFromIds(IndexAll(order, latest).rows, s.rows, latest, latest);
  }

  lemma Extended(lines: seq<Line>, line: Line)
    ensures (lines + [line])[..|lines + [line]| - 1] == lines
  {
  }

  lemma EntryAppended(lines: seq<Line>, r: Record)
    requires WellFormed(r) && r.id != ""
    ensures var more := lines + [Entry(MemoryToDict(r))];
            && Latest(more) == Latest(lines)[r.id := r]
            && Order(more) == if r.id in Latest(lines) then Order(lines) else Order(lines) + [r.id]
  {
    Extended(lines, Entry(MemoryToDict(r)));
    RoundTrip(r);
  }

  lemma PersistMirrors(lines: seq<Line>, rows: seq<Record>, r: Record)
    requires Mirrors(lines, rows) && WellFormed(r) && r.id != "" && r.id !in Order(lines)
    ensures Mirrors(lines + [Entry(MemoryToDict(r))], rows + [r])
    ensures Order(lines + [Entry(MemoryToDict(r))]) == Order(lines) + [r.id]
  {
    LatestInOrder(lines);
    EntryAppended(lines, r);
    var m, order := Latest(lines), Order(lines);
    NoDupAppend(order, r.id);
    FilterCongruent(Alive(m), Alive(m[r.id := r]), order);
    FilterAppend(Alive(m[r.id := r]), order, [r.id]);
    IdsUnderAppend(rows, r, "");
  }

  lemma {:induction false} LatestInOrder(lines: seq<Line>)
    ensures forall id :: id in Latest(lines) ==> id in Order(lines)
  {
    if lines != [] {
      LatestInOrder(lines[..|lines| - 1]);
    }
  }

  lemma UpdateMirrors(lines: seq<Line>, rows: seq<Record>, i: nat, r: Record)
    requires Mirrors(lines, rows) && WellFormed(r) && r.id != "" && i < |rows| && rows[i].id == r.id
    requires NoDup(Ids(rows))
    ensures Mirrors(lines + [Entry(MemoryToDict(r))], rows[i := r])
    ensures Order(lines + [Entry(MemoryToDict(r))]) == Order(lines)
  {
    EntryAppended(lines, r);
    var m := Latest(lines);
    assert rows[i] in rows;
    FilterCongruent(Alive(m), Alive(m[r.id := r]), Order(lines));
    assert Ids(rows[i := r]) == Ids(rows);
    forall x | x in rows[i := r] ensures x.id in m && m[r.id := r][x.id] == x {
      var j :| 0 <= j < |rows| && rows[i := r][j] == x;
      assert rows[j] in rows;
      if j != i {
        assert Ids(rows)[j] != Ids(rows)[i];
      }
    }
  }

  lemma EraseMirrors(lines: seq<Line>, rows: seq<Record>, id: string)
    requires Mirrors(lines, rows)
    ensures Mirrors(lines + [Tombstone(id)], Drop(rows, id))
    ensures Order(lines + [Tombstone(id)]) == Order(lines)
  {
    Extended(lines, Tombstone(id));
    var m, order := Latest(lines), Order(lines);
    FilterFilter(Differs(id), Alive(m), Alive(m - {id}), order);
    IdsDrop(rows, id);
  }

  // ----- Whole runs -----

  // The files after a run that began with none.
  function FilesOf(cfg: Config, ops: seq<Op>): Files {
    AppendAll(NO_FILES, Actions(cfg, EMPTY, ops))
  }

  lemma {:induction false} AppendAllSplit(f: Files, a: seq<Action>, b: seq<Action>)
    ensures AppendAll(f, a + b) == AppendAll(AppendAll(f, a), b)
  {
    if b == [] {
      assert a + b == a;
    } else {
      assert (a + b)[..|a + b| - 1] == a + b[..|b| - 1];
      AppendAllSplit(f, a, b[..|b| - 1]);
    }
  }

  lemma {:induction false} StaysClosed(f: Files, actions: seq<Action>)
    requires Closed(f)
    ensures Closed(AppendAll(f, actions))
  {
    if actions != [] {
      StaysClosed(f, actions[..|actions| - 1]);
    }
  }

  lemma AppendOne(f: Files, a: Action)
    ensures AppendAll(f, [a]) == Append(f, a)
  {
  }

  lemma AppendTwo(f: Files, a: Action, b: Action)
    ensures AppendAll(f, [a, b]) == Append(Append(f, a), b)
  {
    AppendAllSplit(f, [a], [b]);
    assert [a] + [b] == [a, b];
  }

  // An operation does nothing, only logs an event, or changes one memory and logs it.
  lemma ActionShape(cfg: Config, s: State, op: Op)
    ensures var acts := Do(cfg, s, op).actions;
            && |acts| <= 2
            && (|acts| == 1 ==> acts[0].Emit?)
            && (|acts| == 2 ==> !acts[0].Emit? && acts[1].Emit?)
  {
  }

  // An operation appends at most one memory line.
  lemma LinesOfStep(f: Files, cfg: Config, s: State, op: Op)
    requires Closed(f)
    ensures var after := AppendAll(f, Do(cfg, s, op).actions);
            f.memories <= after.memories && |after.memories| <= |f.memories| + 1
  {
    ActionShape(cfg, s, op);
    LinesOfActions(f, Do(cfg, s, op).actions);
  }

  lemma LinesOfActions(f: Files, acts: seq<Action>)
    requires Closed(f) && |acts| <= 2
    requires (|acts| == 1 ==> acts[0].Emit?) && (|acts| == 2 ==> !acts[0].Emit? && acts[1].Emit?)
    ensures var after := AppendAll(f, acts);
            f.memories <= after.memories && |after.memories| <= |f.memories| + 1
  {
    if |acts| == 1 {
      AppendOne(f, acts[0]);
      assert acts == [acts[0]];
    } else if |acts| == 2 {
      AppendTwo(f, acts[0], acts[1]);
      assert acts == [acts[0], acts[1]];
    }
  }

  // Whole files in step with a live store: what is appended next stands on a line of its own.
  ghost predicate Synced(f: Files, s: State, used: set<string>) {
    && Closed(f)
    && Mirrors(f.memories, s.rows)
    && (forall id :: id in Order(f.memories) ==> id in used)
    && ReadEvents(f.events) == s.events
  }

  lemma EmitSynced(f: Files, s: State, used: set<string>, e: Event)
    requires Synced(f, s, used) && e.namespace.Valid()
    ensures Synced(Append(f, Emit(e)), Logged(s, e), used)
  {
    assert (f.events + [Audit(e)])[..|f.events|] == f.events;
  }

  lemma AddSynced(cfg: Config, f: Files, s: State, used: set<string>, m: Record, newId: string, at: string)
    requires Lawful(cfg) && Inv(s) && Synced(f, s, used) && WellFormed(m) && newId != "" && newId !in used
    requires newId !in Ids(s.rows)
    ensures Synced(AppendAll(f, DoAdd(cfg, s, m, newId, at).actions), DoAdd(cfg, s, m, newId, at).state, used + {newId})
  {
    if Review(m, cfg).Accepted? {
      ReviewKeepsForm(m, cfg);
      var v := Review(m, cfg).record;
      WellFormedUpdates(v, newId, at, at, v.status, v.confidence);
      var r := v.(id := newId, createdAt := at, updatedAt := at);
      PersistMirrors(f.memories, s.rows, r);
      var e := Event(r.namespace, at, Wrote(newId, r.title, r.status));
      EmitSynced(Append(f, Persist(r)), Indexed(s, r), used + {newId}, e);
      AppendTwo(f, Persist(r), Emit(e));
    } else {
      var e := Event(m.namespace, at, Rejected(Review(m, cfg).reason));
      EmitSynced(f, s, used, e);
      AppendOne(f, Emit(e));
    }
  }

  lemma PutSynced(f: Files, s: State, used: set<string>, r: Record)
    requires Inv(s) && Synced(f, s, used) && r.id in Ids(s.rows) && WellFormed(r) && r.id != ""
    ensures Synced(Append(f, Update(r)), s.(rows := Put(s.rows, r)), used)
  {
    var i := Position(s.rows, r.id);
    FoundAt(s.rows, i);
    UpdateMirrors(f.memories, s.rows, i, r);
  }

  lemma UpdateSynced(f: Files, s: State, used: set<string>, r: Record, e: Event)
    requires Inv(s) && Synced(f, s, used) && r.id in Ids(s.rows) && WellFormed(r) && r.id != ""
    requires e.namespace.Valid()
    ensures Synced(AppendAll(f, DoUpdate(s, r, e).actions), DoUpdate(s, r, e).state, used)
  {
    PutSynced(f, s, used, r);
    AppendTwo(f, Update(r), Emit(e));
    EmitSynced(Append(f, Update(r)), s.(rows := Put(s.rows, r)), used, e);
  }

  lemma ForgetSynced(f: Files, s: State, used: set<string>, id: string, at: string)
    requires Inv(s) && Synced(f, s, used)
    ensures Synced(AppendAll(f, DoForget(s, id, at).actions), DoForget(s, id, at).state, used)
  {
    if Lookup(s.rows, id).Some? {
      var r := Lookup(s.rows, id).value;
      assert r in s.rows;
      var e := Event(r.namespace, at, Forgot(id));
      AppendTwo(f, Erase(id), Emit(e));
      EraseMirrors(f.memories, s.rows, id);
      EmitSynced(Append(f, Erase(id)), State(Drop(s.rows, id), DoForget(s, id, at).state.index, s.events), used, e);
    }
  }

  // Every operation on fresh input keeps the files in step with the live store.
  lemma StepSynced(cfg: Config, f: Files, s: State, used: set<string>, op: Op)
    requires Lawful(cfg) && Inv(s) && Synced(f, s, used) && FreshOp(op, used) && FreshOp(op, set id | id in Ids(s.rows))
    ensures Synced(AppendAll(f, Do(cfg, s, op).actions), Do(cfg, s, op).state,
                   used + if op.Add? then {op.newId} else {})
  {
    match op
    case Add(m, newId, at) => AddSynced(cfg, f, s, used, m, newId, at);
    case SetStatus(id, status, at) =>
      if status in MEMORY_STATUSES && Lookup(s.rows, id).Some? {
        var r := Lookup(s.rows, id).value;
        WellFormedUpdates(r, r.id, r.createdAt, at, status, r.confidence);
        UpdateSynced(f, s, used, r.(status := status, updatedAt := at),
                     Event(r.namespace, at, StatusChanged(id, r.status, status)));
      }
    case SetConfidence(id, confidence, at) =>
      if 0.0 <= confidence <= 1.0 && Lookup(s.rows, id).Some? {
        var r := Lookup(s.rows, id).value;
        WellFormedUpdates(r, r.id, r.createdAt, at, r.status, confidence);
        UpdateSynced(f, s, used, r.(confidence := confidence, updatedAt := at),
                     Event(r.namespace, at, ConfidenceChanged(id, r.confidence, confidence)));
      }
    case Forget(id, at) => ForgetSynced(f, s, used, id, at);
    case Query(q, clock, at) =>
      QueryIsScan(cfg, s, q, clock, at);
      if !QueryRefused(s, q) {
        var e := Do(cfg, s, op).actions[0].event;
        AppendOne(f, Emit(e));
        EmitSynced(f, s, used, e);
      }
  }

  lemma {:induction false} RunSynced(cfg: Config, ops: seq<Op>)
    requires Lawful(cfg) && Legal(ops)
    ensures Inv(Run(cfg, EMPTY, ops))
    ensures Synced(FilesOf(cfg, ops), Run(cfg, EMPTY, ops), Drawn(ops))
  {
    RunKeepsInv(cfg, ops);
    if ops == [] {
      assert Filter(Alive(Latest([])), Order([])) == [];
    } else {
      var init, op := ops[..|ops| - 1], ops[|ops| - 1];
      RunSynced(cfg, init);
      RunKeepsInv(cfg, init);
      DrawnStep(ops);
      var s := Run(cfg, EMPTY, init);
      AppendAllSplit(NO_FILES, Actions(cfg, EMPTY, init), Do(cfg, s, op).actions);
      StepSynced(cfg, FilesOf(cfg, init), s, Drawn(init), op);
    }
  }

  // Two states hold the same memories: an index entry that is missing equals one that is empty.
  ghost predicate SameMemories(a: State, b: State) {
    a.rows == b.rows && forall key :: IndexAt(a.index, key) == IndexAt(b.index, key)
  }

  ghost predicate SameStore(a: State, b: State) {
    SameMemories(a, b) && a.events == b.events
  }

  // After any run from an empty directory, reopening the files rebuilds the live store exactly.
  lemma ReopenRestores(cfg: Config, ops: seq<Op>)
    requires Lawful(cfg) && Legal(ops)
    ensures SameStore(Load(FilesOf(cfg, ops)), Run(cfg, EMPTY, ops))
  {
    RunSynced(cfg, ops);
    MirrorReplays(FilesOf(cfg, ops), Run(cfg, EMPTY, ops));
  }

  // ----- Crashes -----

  lemma {:induction false} JunkSkipped(a: seq<Line>, b: seq<Line>)
    ensures Latest(a + [Junk] + b) == Latest(a + b) && Order(a + [Junk] + b) == Order(a + b)
  {
    if b == [] {
      assert a + [Junk] + b == a + [Junk] && a + b == a;
      Extended(a, Junk);
    } else {
      var init, last := b[..|b| - 1], b[|b| - 1];
      assert a + [Junk] + b == (a + [Junk] + init) + [last] && a + b == (a + init) + [last];
      JunkSkipped(a, init);
      SameNext(a + [Junk] + init, a + init, last);
    }
  }

  lemma SameNext(a: seq<Line>, b: seq<Line>, line: Line)
    requires Latest(a) == Latest(b) && Order(a) == Order(b)
    ensures Latest(a + [line]) == Latest(b + [line]) && Order(a + [line]) == Order(b + [line])
  {
    Extended(a, line);
    Extended(b, line);
  }

  lemma {:induction false} LinesGrow(cfg: Config, ops: seq<Op>, k: nat)
    requires k <= |ops|
    ensures FilesOf(cfg, ops[..k]).memories <= FilesOf(cfg, ops).memories
  {
    if k == |ops| {
      assert ops[..k] == ops;
    } else {
      var init, op := ops[..|ops| - 1], ops[|ops| - 1];
      LinesGrow(cfg, init, k);
      PrefixOfPrefix(ops, |init|, k);
      var acts := Do(cfg, Run(cfg, EMPTY, init), op).actions;
      AppendAllSplit(NO_FILES, Actions(cfg, EMPTY, init), acts);
      StaysClosed(NO_FILES, Actions(cfg, EMPTY, init));
      LinesOfStep(FilesOf(cfg, init), cfg, Run(cfg, EMPTY, init), op);
    }
  }

  // The file holds these lines, with or without a torn line behind them.
  predicate HoldsLines(f: Files, lines: seq<Line>) {
    f.memories == lines || f.memories == lines + [Junk]
  }

  lemma CutAtEnd(cfg: Config, ops: seq<Op>, f: Files)
    requires Lawful(cfg) && Legal(ops) && HoldsLines(f, FilesOf(cfg, ops).memories)
    ensures SameMemories(Load(f), Run(cfg, EMPTY, ops))
  {
    var lines := FilesOf(cfg, ops).memories;
    RunSynced(cfg, ops);
    MirrorReplays(f.(memories := lines), Run(cfg, EMPTY, ops));
    JunkSkipped(lines, []);
    assert lines + [Junk] + [] == lines + [Junk] && lines + [] == lines;
  }

  // Each operation writes at most one memory line, so a shorter log is that of a shorter run.
  lemma EarlierLines(cfg: Config, ops: seq<Op>, n: nat)
    requires n < |FilesOf(cfg, ops).memories|
    ensures ops != []
    ensures var init := ops[..|ops| - 1];
            n <= |FilesOf(cfg, init).memories| && FilesOf(cfg, ops).memories[..n] == FilesOf(cfg, init).memories[..n]
  {
    assert ops != [];
    var init, op := ops[..|ops| - 1], ops[|ops| - 1];
    AppendAllSplit(NO_FILES, Actions(cfg, EMPTY, init), Do(cfg, Run(cfg, EMPTY, init), op).actions);
    StaysClosed(NO_FILES, Actions(cfg, EMPTY, init));
    LinesOfStep(FilesOf(cfg, init), cfg, Run(cfg, EMPTY, init), op);
  }

  // Every prefix of a run's log is the log of a prefix of the run.
  lemma {:induction false} PrefixOfRun(cfg: Config, ops: seq<Op>, n: nat) returns (k: nat)
    requires Legal(ops) && n <= |FilesOf(cfg, ops).memories|
    ensures k <= |ops| && Legal(ops[..k])
    ensures FilesOf(cfg, ops[..k]).memories == FilesOf(cfg, ops).memories[..n]
  {
    if n == |FilesOf(cfg, ops).memories| {
      k := |ops|;
      assert ops[..k] == ops;
    } else {
      EarlierLines(cfg, ops, n);
      k := PrefixOfRun(cfg, ops[..|ops| - 1], n);
      PrefixOfPrefix(ops, |ops| - 1, k);
    }
  }

  // A memory log cut after n complete lines, with or without a torn line behind them, replays to the
  // memories, order and index the live store had once those n lines were written.
  lemma CutReplaysEarlierState(cfg: Config, ops: seq<Op>, n: nat, f: Files) returns (k: nat)
    requires Lawful(cfg) && Legal(ops) && n <= |FilesOf(cfg, ops).memories|
    requires HoldsLines(f, FilesOf(cfg, ops).memories[..n])
    ensures k <= |ops| && FilesOf(cfg, ops[..k]).memories == FilesOf(cfg, ops).memories[..n]
    ensures SameMemories(Load(f), Run(cfg, EMPTY, ops[..k]))
  {
    k := PrefixOfRun(cfg, ops, n);
    CutAtEnd(cfg, ops[..k], f);
  }

  function EventOf(line: EventLine): Event {
    if line.Audit? then line.event else Event(Namespace("", ""), "", Forgot(""))
  }

  lemma {:induction false} AuditsRead(lines: seq<EventLine>)
    requires forall i :: 0 <= i < |lines| ==> lines[i].Audit? && lines[i].event.namespace.Valid()
    ensures ReadEvents(lines) == Map(EventOf, lines)
  {
    if lines != [] {
      var n := |lines| - 1;
      var init := lines[..n];
      AuditsRead(init);
      MapLast(EventOf, lines);
    }
  }

  // The event log cut anywhere, with a torn line behind it, replays to the events logged up to there.
  lemma CutEvents(lines: seq<EventLine>, n: nat)
    requires n <= |lines|
    requires forall i :: 0 <= i < |lines| ==> lines[i].Audit? && lines[i].event.namespace.Valid()
    ensures |ReadEvents(lines)| == |lines| && ReadEvents(lines[..n] + [Torn]) == ReadEvents(lines)[..n]
  {
    var cut := lines[..n] + [Torn];
    assert cut[..|cut| - 1] == lines[..n];
    AuditsRead(lines);
    AuditsRead(lines[..n]);
  }

  function AuditOf(e: Event): EventLine {
    Audit(e)
  }

  // The events that a list of hook calls emits.
  function Emitted(actions: seq<Action>): seq<Event> {
    if actions == [] then []
    else
      var a := actions[|actions| - 1];
      Emitted(actions[..|actions| - 1]) + if a.Emit? then [a.event] else []
  }

  lemma {:induction false} EmittedSplit(a: seq<Action>, b: seq<Action>)
    ensures Emitted(a + b) == Emitted(a) + Emitted(b)
  {
    if b == [] {
      assert a + b == a;
    } else {
      assert (a + b)[..|a + b| - 1] == a + b[..|b| - 1];
      EmittedSplit(a, b[..|b| - 1]);
    }
  }

  lemma {:induction false} AppendedEvents(f: Files, actions: seq<Action>)
    requires Closed(f)
    ensures AppendAll(f, actions).events == f.events + Map(AuditOf, Emitted(actions))
  {
    if actions != [] {
      AppendedEvents(f, actions[..|actions| - 1]);
      StaysClosed(f, actions[..|actions| - 1]);
      var before, a := Emitted(actions[..|actions| - 1]), actions[|actions| - 1];
      if a.Emit? {
        assert Map(AuditOf, before + [a.event]) == Map(AuditOf, before) + [Audit(a.event)];
      }
    }
  }

  // A step logs in memory exactly the events it emits to the backend.
  lemma StepEmits(cfg: Config, s: State, op: Op)
    ensures Do(cfg, s, op).state.events == s.events + Emitted(Do(cfg, s, op).actions)
  {
    ActionShape(cfg, s, op);
    StepLogs(cfg, s, op);
    EmittedShort(Do(cfg, s, op).actions);
  }

  lemma StepLogs(cfg: Config, s: State, op: Op)
    ensures var acts, events := Do(cfg, s, op).actions, Do(cfg, s, op).state.events;
            && (|acts| == 0 ==> events == s.events)
            && (|acts| == 1 ==> acts[0].Emit? && events == s.events + [acts[0].event])
            && (|acts| == 2 ==> acts[1].Emit? && events == s.events + [acts[1].event])
  {
  }

  lemma EmittedShort(acts: seq<Action>)
    requires |acts| <= 2
    requires (|acts| == 1 ==> acts[0].Emit?) && (|acts| == 2 ==> !acts[0].Emit? && acts[1].Emit?)
    ensures Emitted(acts) == if |acts| == 0 then [] else [acts[|acts| - 1].event]
  {
    if |acts| == 2 {
      assert acts[..1][..0] == [];
    }
  }

  lemma {:induction false} RunEmits(cfg: Config, s: State, ops: seq<Op>)
    ensures Run(cfg, s, ops).events == s.events + Emitted(Actions(cfg, s, ops))
  {
    if ops != [] {
      var init, op := ops[..|ops| - 1], ops[|ops| - 1];
      RunEmits(cfg, s, init);
      StepEmits(cfg, Run(cfg, s, init), op);
      EmitsNext(s.events, Actions(cfg, s, init), Do(cfg, Run(cfg, s, init), op).actions);
    }
  }

  lemma EmitsNext(events: seq<Event>, a: seq<Action>, b: seq<Action>)
    ensures events + Emitted(a) + Emitted(b) == events + Emitted(a + b)
  {
    EmittedSplit(a, b);
  }

  lemma {:induction false} AllRead(lines: seq<EventLine>)
    ensures |ReadEvents(lines)| <= |lines|
    ensures |ReadEvents(lines)| == |lines| ==>
              forall i :: 0 <= i < |lines| ==> lines[i].Audit? && lines[i].event.namespace.Valid()
  {
    if lines != [] {
      AllRead(lines[..|lines| - 1]);
    }
  }

  // The event log of any run, cut after n lines and with a torn line behind them, replays to the first n
  // events of the run.
  lemma CutEventsOfRun(cfg: Config, ops: seq<Op>, n: nat)
    requires Lawful(cfg) && Legal(ops) && n <= |FilesOf(cfg, ops).events|
    ensures |FilesOf(cfg, ops).events| == |Run(cfg, EMPTY, ops).events|
    ensures ReadEvents(FilesOf(cfg, ops).events[..n] + [Torn]) == Run(cfg, EMPTY, ops).events[..n]
  {
    RunSynced(cfg, ops);
    RunEmits(cfg, EMPTY, ops);
    AppendedEvents(NO_FILES, Actions(cfg, EMPTY, ops));
    AllRead(FilesOf(cfg, ops).events);
    CutEvents(FilesOf(cfg, ops).events, n);
  }
}
