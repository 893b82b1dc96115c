/** The store as it runs: memory objects changed in place, dictionaries, and the two durable backends. */
module LiveStore {
  import opened Seqs
  import opened Models
  import opened Policy
  import opened ThreadScope
  import opened Serialize
  import opened Sorting
  import opened StoreModel
  import opened StoreLaws
  import Exchange
  import Gate
  import Journal
  import Table

  // A memory object: the store assigns and changes five of its fields.
  class Memory {
    const content: Record
    var id: string
    var createdAt: string
    var updatedAt: string
    var status: string
    var confidence: real

    constructor (r: Record)
      ensures Value() == r && fresh(this)
    {
      content, id, createdAt, updatedAt, status, confidence := r, r.id, r.createdAt, r.updatedAt, r.status, r.confidence;
    }

    function Value(): Record
      reads this
    {
      content.(id := id, createdAt := createdAt, updatedAt := updatedAt, status := status, confidence := confidence)
    }
  }

  // What a store keeps on disk: nothing, two log files, or a database.
  datatype DiskView = Nothing | Log(files: Journal.Files) | Database(db: Table.Db) {
    // The effect of a list of hook calls.
    function After(actions: seq<Action>): DiskView {
      match this
      case Nothing => Nothing
      case Log(files) => Log(Journal.AppendAll(files, actions))
      case Database(db) => Database(Table.ExecuteAll(db, actions))
    }

    // What is on disk is in step with the given live state.
    ghost predicate Restores(s: State, used: set<string>) {
      match this
      case Nothing => true
      case Log(files) => Journal.Synced(files, s, used)
      case Database(db) => Table.Synced(db, s)
    }
  }

  // The directory or database file that a store has open.
  class Disk {
    var contents: DiskView

    constructor (contents: DiskView)
      ensures this.contents == contents
    {
      this.contents := contents;
    }
  }

  lemma AfterOne(v: DiskView, a: Action)
    ensures v.After([a]) == match v
                            case Nothing => Nothing
                            case Log(files) => Log(Journal.Append(files, a))
                            case Database(db) => Database(Table.Execute(db, a))
  {
    if v.Log? { Journal.AppendOne(v.files, a); }
    if v.Database? { Table.ExecuteOne(v.db, a); }
  }

  lemma AfterSplit(v: DiskView, a: seq<Action>, b: seq<Action>)
    ensures v.After(a).After(b) == v.After(a + b)
  {
    if v.Log? { Journal.AppendAllSplit(v.files, a, b); }
    if v.Database? { Table.ExecuteAllSplit(v.db, a, b); }
  }

  lemma AfterNone(v: DiskView)
    ensures v.After([]) == v
  {
  }

  lemma AfterTwo(v: DiskView, a: Action, b: Action)
    ensures v.After([a]).After([b]) == v.After([a, b])
  {
    AfterSplit(v, [a], [b]);
    assert [a] + [b] == [a, b];
  }

  lemma LoadedLog(files: Journal.Files, used: set<string>)
    requires used == set id | id in Journal.Order(files.memories)
    ensures Inv(Journal.Load(files))
    ensures forall id :: id in Ids(Journal.Load(files).rows) ==> id in used
    ensures Journal.Closed(files) && NoDup(Journal.Order(files.memories)) ==> Log(files).Restores(Journal.Load(files), used)
  {
    Journal.LatestSound(files.memories);
    Journal.IndexAllInv(Journal.Order(files.memories), Journal.Latest(files.memories));
  }

  // The replay loop of _load: the last write of each id wins, and births keep their order.
  method Replay(lines: seq<Journal.Line>) returns (latest: map<string, Record>, order: seq<string>)
    ensures latest == Journal.Latest(lines) && order == Journal.Order(lines)
  {
    latest, order := map[], [];
    for i := 0 to |lines|
      invariant latest == Journal.Latest(lines[..i]) && order == Journal.Order(lines[..i])
    {
      assert lines[..i + 1][..i] == lines[..i];
      match lines[i]
      case Junk =>
      case Tombstone(id) => latest := latest - {id};
      case Entry(record) =>
        var memory := MemoryFromDict(record);
        if memory.Some? && memory.value.id != "" {
          if memory.value.id !in latest {
            order := order + [memory.value.id];
          }
          latest := latest[memory.value.id := memory.value];
        }
    }
    assert lines[..|lines|] == lines;
  }

  method ReadAudit(lines: seq<Journal.EventLine>) returns (events: seq<Event>)
    ensures events == Journal.ReadEvents(lines)
  {
    events := [];
    for i := 0 to |lines|
      invariant events == Journal.ReadEvents(lines[..i])
    {
      assert lines[..i + 1][..i] == lines[..i];
      if lines[i].Audit? && lines[i].event.namespace.Valid() {
        events := events + [lines[i].event];
      }
    }
    assert lines[..|lines|] == lines;
  }

  ghost predicate Represent(objects: seq<Memory>, values: seq<Record>)
    reads objects
  {
    |objects| == |values| && forall i :: 0 <= i < |objects| ==> objects[i].Value() == values[i]
  }

  class MemoryStore {
    const cfg: Config
    const disk: Disk
    var byId: map<string, Memory>
    var keys: seq<string>             // the keys of byId in insertion order
    var byNs: map<string, seq<string>>
    var events: seq<Event>
    ghost var rows: seq<Record>       // the values of the objects, in key order
    ghost var used: set<string>       // every id ever assigned
    ghost var repr: set<Memory>       // the objects the dictionary has held

    // The dictionary holds, in key order, objects with the values in rows, each under its own id.
    ghost predicate Shape()
      reads this, repr
    {
      && Ids(rows) == keys
      && NoDup(keys)
      && (forall k :: k in byId <==> k in keys)
      && forall i :: 0 <= i < |keys| ==>
                       keys[i] in byId && byId[keys[i]] in repr && byId[keys[i]].Value() == rows[i]
    }

    ghost function State(): State
      reads this
    {
      StoreModel.State(rows, byNs, events)
    }

    ghost predicate Valid()
      reads this, repr
    {
      && Shape()
      && Lawful(cfg)
      && Inv(State())
      && forall k :: k in keys ==> k in used
    }

    // The files or the table are in step with this store.
    ghost predicate Durable()
      reads this, disk
    {
      disk.contents.Restores(State(), used)
    }

    constructor (cfg: Config, disk: Disk)
      requires Lawful(cfg)
      ensures Valid() && State() == EMPTY && used == {} && this.cfg == cfg && this.disk == disk
      ensures repr == {}
    {
      this.cfg, this.disk := cfg, disk;
      byId, keys, byNs, events, rows, used, repr := map[], [], map[], [], [], {}, {};
      new;
      Journal.RunKeepsInvEmpty();
    }

    lemma Found(id: string)
      requires Shape()
      ensures id in byId <==> Lookup(rows, id).Some?
      ensures id in byId ==> Lookup(rows, id).value == byId[id].Value() && byId[id] in repr
    {
      if id in byId {
        var i :| 0 <= i < |keys| && keys[i] == id;
        FoundAt(rows, i);
      }
    }

    // dict[id] = m for an id that is there: it keeps its place in the dictionary.
    method ReplaceObject(m: Memory)
      requires Shape() && m !in repr && m.id in byId
      modifies this`byId, this`repr, this`rows
      ensures Shape() && rows == Put(old(rows), m.Value())
      ensures byId == old(byId)[m.id := m] && repr == old(repr) + {m}
    {
      ghost var i, v := Position(rows, m.id), m.Value();
      AmendRow(i, v);
      rows := rows[i := v];
      byId := byId[m.id := m];
      repr := repr + {m};
      assert forall j :: 0 <= j < |keys| && j != i ==> byId[keys[j]] == old(byId)[keys[j]];
    }

    method AppendObject(m: Memory)
      requires Shape() && m !in repr && m.id !in byId
      modifies this`byId, this`keys, this`repr, this`rows
      ensures Shape() && rows == Put(old(rows), m.Value())
      ensures byId == old(byId)[m.id := m] && repr == old(repr) + {m}
    {
      ghost var before, v := rows, m.Value();
      IdsUnderAppend(rows, v, "");
      NoDupAppend(keys, m.id);
      rows := rows + [v];
      keys := keys + [m.id];
      byId := byId[m.id := m];
      repr := repr + {m};
      forall i | 0 <= i < |before| ensures Holds(before[i]) {
        assert old(keys)[i] == before[i].id && byId[before[i].id] == old(byId)[before[i].id];
      }
      AllHeld();
    }

    method PutObject(m: Memory)
      requires Shape() && m !in repr
      modifies this`byId, this`keys, this`repr, this`rows
      ensures Shape() && rows == Put(old(rows), m.Value())
      ensures byId == old(byId)[m.id := m] && repr == old(repr) + {m}
    {
      if m.id in byId {
        ReplaceObject(m);
      } else {
        AppendObject(m);
      }
    }

    // _index
    method Index(m: Memory)
      requires Shape() && m !in repr
      modifies this`byId, this`keys, this`repr, this`rows, this`byNs
      ensures Shape() && State() == Indexed(old(State()), m.Value())
      ensures byId == old(byId)[m.id := m] && repr == old(repr) + {m}
    {
      PutObject(m);
      var key := m.content.namespace.AsKey();
      var ids := if key in byNs then byNs[key] else [];
      byNs := byNs[key := if m.id in ids then ids else ids + [m.id]];
    }

    // The hooks: nothing, an appended line, or a statement.
    method PersistMemory(r: Record)
      requires Shape()
      modifies disk
      ensures Shape()
      ensures disk.contents == old(disk.contents).After([Persist(r)])
    {
      AfterOne(disk.contents, Persist(r));
      match disk.contents
      case Nothing =>
      case Log(f) => disk.contents := Log(Journal.WithMemory(f, Journal.Entry(MemoryToDict(r))));
      case Database(db) =>
        disk.contents := Database(db.(memories := Table.InsertRow(db.memories, Table.MemoryToRow(r))));
    }

    method PersistUpdate(r: Record)
      requires Shape()
      modifies disk
      ensures Shape()
      ensures disk.contents == old(disk.contents).After([Update(r)])
    {
      AfterOne(disk.contents, Update(r));
      match disk.contents
      case Nothing =>
      case Log(f) => disk.contents := Log(Journal.WithMemory(f, Journal.Entry(MemoryToDict(r))));
      case Database(db) =>
        var set3 := Table.SetColumns(r.id, r.status, r.confidence, r.updatedAt);
        disk.contents := Database(db.(memories := Map(set3, db.memories)));
    }

    method PersistForget(id: string)
      requires Shape()
      modifies disk
      ensures Shape()
      ensures disk.contents == old(disk.contents).After([Erase(id)])
    {
      AfterOne(disk.contents, Erase(id));
      match disk.contents
      case Nothing =>
      case Log(f) => disk.contents := Log(Journal.WithMemory(f, Journal.Tombstone(id)));
      case Database(db) => disk.contents := Database(db.(memories := Filter(Table.NotRow(id), db.memories)));
    }

    // The in-memory log comes first, then the backend's.
    method Emit(e: Event)
      requires Shape()
      modifies this`events, disk
      ensures Shape()
      ensures events == old(events) + [e]
      ensures disk.contents == old(disk.contents).After([Action.Emit(e)])
    {
      AfterOne(disk.contents, Action.Emit(e));
      events := events + [e];
      match disk.contents
      case Nothing =>
      case Log(f) => disk.contents := Log(Journal.WithEvent(f, Journal.Audit(e)));
      case Database(db) =>
        var row := Table.EventRow(e.namespace.tenant, e.namespace.project, e.at, e.detail);
        disk.contents := Database(db.(events := db.events + [row]));
    }

    // ----- Writing -----

    // The accepted half of add: assign the store-owned fields, index, persist, log.
    method Keep(m: Memory, newId: string, at: string)
      requires Shape() && m !in repr
      modifies this`byId, this`keys, this`byNs, this`events, this`rows, this`repr, m, disk
      ensures Shape() && repr == old(repr) + {m}
      ensures var r := old(m.Value()).(id := newId, createdAt := at, updatedAt := at);
              var e := Event(r.namespace, at, Wrote(newId, r.title, r.status));
              && m.Value() == r
              && State() == Logged(Indexed(old(State()), r), e)
              && disk.contents == old(disk.contents).After([Persist(r), Action.Emit(e)])
    {
      ghost var before := disk.contents;
      var r := m.Value().(id := newId, createdAt := at, updatedAt := at);
      var e := Event(r.namespace, at, Wrote(newId, r.title, r.status));
      m.id, m.createdAt, m.updatedAt := newId, at, at;
      assert m.Value() == r;
      Index(m);
      PersistMemory(r);
      Emit(e);
      AfterTwo(before, Persist(r), Action.Emit(e));
    }

    // The accepted record goes into the object given, unless the gate redacts.
    method KeepReviewed(m: Memory, reviewed: Record, newId: string, at: string) returns (stored: Memory)
      requires Shape() && m !in repr
      requires reviewed == m.Value() || cfg.piiMode == RedactPii
      modifies this`byId, this`keys, this`byNs, this`events, this`rows, this`repr, m, disk
      ensures Shape() && repr == old(repr) + {stored}
      ensures if cfg.piiMode == RedactPii then fresh(stored) && m.Value() == old(m.Value()) else stored == m
      ensures var r := reviewed.(id := newId, createdAt := at, updatedAt := at);
              var e := Event(r.namespace, at, Wrote(newId, r.title, r.status));
              && stored.Value() == r
              && State() == Logged(Indexed(old(State()), r), e)
              && disk.contents == old(disk.contents).After([Persist(r), Action.Emit(e)])
    {
      stored := m;
      if cfg.piiMode == RedactPii {
        stored := new Memory(reviewed);
      }
      Keep(stored, newId, at);
    }

    // add without the invariant: the gate, then the dictionaries, then the hooks.
    method Offer(m: Memory, newId: string, at: string) returns (stored: Memory?, reason: string)
      requires Shape() && m !in repr
      modifies this`byId, this`keys, this`byNs, this`events, this`rows, this`repr, m, disk
      ensures Shape()
      ensures stored != null ==> repr == old(repr) + {stored}
      ensures stored != null ==> if cfg.piiMode == RedactPii then fresh(stored) else stored == m
      ensures stored != m ==> m.Value() == old(m.Value())
      ensures stored == null ==> repr == old(repr)
      ensures var step := DoAdd(cfg, old(State()), old(m.Value()), newId, at);
              && State() == step.state
              && disk.contents == old(disk.contents).After(step.actions)
              && step.reply == if stored == null then Refusal(reason) else Stored(stored.Value())
    {
      ReviewShape(m.Value(), cfg);
      stored, reason := null, "";
      match Review(m.Value(), cfg)
      case Denied(r) =>
        reason := r;
        Emit(Event(m.content.namespace, at, Rejected(r)));
      case Accepted(reviewed) =>
        stored := KeepReviewed(m, reviewed, newId, at);
    }

    method Add(m: Memory, newId: string, at: string) returns (stored: Memory?, reason: string)
      requires Valid() && m !in repr && WellFormed(m.Value()) && newId != "" && newId !in used
      modifies this`byId, this`keys, this`byNs, this`events, this`rows, this`used, this`repr, m, disk
      ensures Valid() && used == old(used) + {newId}
      ensures stored != null ==> repr == old(repr) + {stored}
      ensures stored != null ==> if cfg.piiMode == RedactPii then fresh(stored) else stored == m
      ensures stored != m ==> m.Value() == old(m.Value())
      ensures stored == null ==> repr == old(repr)
      ensures var step := DoAdd(cfg, old(State()), old(m.Value()), newId, at);
              && State() == step.state
              && disk.contents == old(disk.contents).After(step.actions)
              && step.reply == if stored == null then Refusal(reason) else Stored(stored.Value())
      ensures stored != null <==> Gate.PassesAll(old(m.Value()), cfg)
      ensures old(Durable()) ==> Durable()
    {
      Gate.GateDecides(m.Value(), cfg);
      ghost var step := DoAdd(cfg, State(), m.Value(), newId, at);
      StepFacts(disk.contents, State(), StoreModel.Op.Add(m.Value(), newId, at), step);
      used := used + {newId};
      stored, reason := Offer(m, newId, at);
      IsSound(step.state, used);
    }

    // ----- Lifecycle -----

    // The object under an id, if there is one.
    function HeldAt(id: string): set<Memory>
      reads this
    {
      if id in byId then {byId[id]} else {}
    }

    // An in-place change of a stored object, persisted and logged.
    method Amend(id: string, status: string, confidence: real, at: string, e: Event)
      requires Shape() && id in byId
      modifies this`rows, this`events, byId[id], disk
      ensures Shape()
      ensures var r := old(byId[id].Value()).(status := status, confidence := confidence, updatedAt := at);
              && byId[id].Value() == r
              && State() == Logged(old(State()).(rows := Put(old(rows), r)), e)
              && disk.contents == old(disk.contents).After([Update(r), Action.Emit(e)])
    {
      Found(id);
      ghost var before, i := disk.contents, Position(rows, id);
      var m := byId[id];
      var r := m.Value().(status := status, confidence := confidence, updatedAt := at);
      m.status, m.confidence, m.updatedAt := status, confidence, at;
      assert m.Value() == r;
      AmendRow(i, r);
      rows := rows[i := r];
      PersistUpdate(r);
      Emit(e);
      AfterTwo(before, Update(r), Action.Emit(e));
    }

    lemma AmendRow(i: nat, r: Record)
      requires Ids(rows) == keys && NoDup(keys) && i < |rows| && r.id == rows[i].id
      ensures Put(rows, r) == rows[i := r] && Ids(rows[i := r]) == keys
      ensures forall j :: 0 <= j < |keys| && j != i ==> keys[j] != keys[i]
    {
      FoundAt(rows, i);
    }

    method ChangeStatus(id: string, status: string, at: string, ghost step: Step) returns (reply: Reply)
      requires Shape() && step == DoSetStatus(State(), id, status, at)
      modifies this`rows, this`events, HeldAt(id), disk
      ensures Shape()
      ensures State() == step.state && reply == step.reply
      ensures disk.contents == old(disk.contents).After(step.actions)
    {
      Found(id);
      AfterNone(disk.contents);
      if status !in MEMORY_STATUSES {
        return BadValue;
      } else if id !in byId {
        return NoSuchMemory;
      }
      var m := byId[id];
      Amend(id, status, m.confidence, at, Event(m.content.namespace, at, StatusChanged(id, m.status, status)));
      reply := Stored(m.Value());
    }

    method ChangeConfidence(id: string, confidence: real, at: string, ghost step: Step) returns (reply: Reply)
      requires Shape() && step == DoSetConfidence(State(), id, confidence, at)
      modifies this`rows, this`events, HeldAt(id), disk
      ensures Shape()
      ensures State() == step.state && reply == step.reply
      ensures disk.contents == old(disk.contents).After(step.actions)
    {
      Found(id);
      AfterNone(disk.contents);
      if !(0.0 <= confidence <= 1.0) {
        return BadValue;
      } else if id !in byId {
        return NoSuchMemory;
      }
      var m := byId[id];
      Amend(id, m.status, confidence, at, Event(m.content.namespace, at, ConfidenceChanged(id, m.confidence, confidence)));
      reply := Stored(m.Value());
    }

    method SetStatus(id: string, status: string, at: string) returns (reply: Reply)
      requires Valid()
      modifies this`rows, this`events, HeldAt(id), disk
      ensures Valid()
      ensures var step := DoSetStatus(old(State()), id, status, at);
              && State() == step.state
              && disk.contents == old(disk.contents).After(step.actions)
              && reply == step.reply
      ensures old(Durable()) ==> Durable()
    {
      ghost var step := DoSetStatus(State(), id, status, at);
      StepFacts(disk.contents, State(), StoreModel.Op.SetStatus(id, status, at), step);
      reply := ChangeStatus(id, status, at, step);
      IsSound(step.state, used);
    }

    method SetConfidence(id: string, confidence: real, at: string) returns (reply: Reply)
      requires Valid()
      modifies this`rows, this`events, HeldAt(id), disk
      ensures Valid()
      ensures var step := DoSetConfidence(old(State()), id, confidence, at);
              && State() == step.state
              && disk.contents == old(disk.contents).After(step.actions)
              && reply == step.reply
      ensures old(Durable()) ==> Durable()
    {
      ghost var step := DoSetConfidence(State(), id, confidence, at);
      StepFacts(disk.contents, State(), StoreModel.Op.SetConfidence(id, confidence, at), step);
      reply := ChangeConfidence(id, confidence, at, step);
      IsSound(step.state, used);
    }

    // The dictionary holds an object with the value r under its id.
    ghost predicate Holds(r: Record)
      reads this, repr
    {
      r.id in byId && byId[r.id] in repr && byId[r.id].Value() == r
    }

    lemma HeldUnder(r: Record)
      requires Shape() && r in rows
      ensures Holds(r)
    {
      var i :| 0 <= i < |rows| && rows[i] == r;
      assert keys[i] == r.id;
    }

    // del dict[id]
    method DropObject(id: string)
      requires Shape() && id in byId
      modifies this`byId, this`keys, this`rows
      ensures Shape() && rows == Drop(old(rows), id) && id !in byId
    {
      IdsDrop(rows, id);
      FilterNoDup(Differs(id), keys);
      ghost var kept := Drop(rows, id);
      forall i | 0 <= i < |kept| ensures kept[i].id != id && Holds(kept[i]) {
        assert kept[i] in kept;
        HeldUnder(kept[i]);
      }
      rows := kept;
      byId := byId - {id};
      keys := Filter(Differs(id), keys);
      forall i | 0 <= i < |kept| ensures Holds(kept[i]) {
        assert byId[kept[i].id] == old(byId)[kept[i].id];
      }
      AllHeld();
    }

    lemma AllHeld()
      requires Ids(rows) == keys && NoDup(keys) && forall k :: k in byId <==> k in keys
      requires forall i :: 0 <= i < |rows| ==> Holds(rows[i])
      ensures Shape()
    {
      assert forall i :: 0 <= i < |rows| ==> keys[i] == rows[i].id;
    }

    method Unindex(key: string, id: string)
      modifies this`byNs
      ensures var ids := IndexAt(old(byNs), key);
              byNs == if id in ids then old(byNs)[key := RemoveFirst(ids, id)] else old(byNs)
    {
      var ids := if key in byNs then byNs[key] else [];
      if id in ids {
        byNs := byNs[key := RemoveFirst(ids, id)];
      }
    }

    method Unlink(id: string, key: string)
      requires Shape() && id in byId
      modifies this`byId, this`keys, this`byNs, this`rows
      ensures Shape() && rows == Drop(old(rows), id)
      ensures var ids := IndexAt(old(byNs), key);
              byNs == if id in ids then old(byNs)[key := RemoveFirst(ids, id)] else old(byNs)
    {
      DropObject(id);
      Unindex(key, id);
    }

    method Remove(id: string, at: string) returns (existed: bool)
      requires Shape()
      modifies this`byId, this`keys, this`byNs, this`rows, this`events, disk
      ensures Shape()
      ensures var step := DoForget(old(State()), id, at);
              && State() == step.state
              && disk.contents == old(disk.contents).After(step.actions)
              && step.reply == Removed(existed)
    {
      Found(id);
      AfterNone(disk.contents);
      existed := id in byId;
      if existed {
        AfterTwo(disk.contents, Erase(id), Action.Emit(Event(byId[id].content.namespace, at, Forgot(id))));
        var e := Event(byId[id].content.namespace, at, Forgot(id));
        Unlink(id, e.namespace.AsKey());
        PersistForget(id);
        Emit(e);
      }
    }

    method Forget(id: string, at: string) returns (existed: bool)
      requires Valid()
      modifies this`byId, this`keys, this`byNs, this`rows, this`events, disk
      ensures Valid()
      ensures var step := DoForget(old(State()), id, at);
              && State() == step.state
              && disk.contents == old(disk.contents).After(step.actions)
              && step.reply == Removed(existed)
      ensures old(Durable()) ==> Durable()
    {
      ghost var step := DoForget(State(), id, at);
      StepFacts(disk.contents, State(), StoreModel.Op.Forget(id, at), step);
      existed := Remove(id, at);
      IsSound(step.state, used);
    }

    // ----- Reading -----

    // A list comprehension over memory objects with a condition.
    method Select(objects: seq<Memory>, ghost values: seq<Record>, p: Record -> bool) returns (kept: seq<Memory>)
      requires Represent(objects, values)
      ensures Represent(kept, Filter(p, values))
      ensures forall m :: m in kept ==> m in objects
    {
      kept := [];
      for i := 0 to |objects|
        invariant Represent(kept, Filter(p, values[..i]))
        invariant forall m :: m in kept ==> m in objects
      {
        assert values[..i + 1][..i] == values[..i];
        if p(objects[i].Value()) {
          kept := kept + [objects[i]];
        }
      }
      assert values[..|objects|] == values;
    }

    // m is the object that the dictionary holds under its id.
    ghost predicate Current(m: Memory)
      reads this, m
    {
      m in repr && m.id in byId && byId[m.id] == m
    }

    // The objects listed in the index under a key.
    method Gather(ids: seq<string>) returns (objects: seq<Memory>)
      requires Shape() && forall id :: id in ids ==> id in byId
      ensures Represent(objects, Fetch(rows, ids))
      ensures forall m :: m in objects ==> Current(m)
    {
      objects := [];
      for i := 0 to |ids|
        invariant Represent(objects, Fetch(rows, ids[..i]))
        invariant forall m :: m in objects ==> Current(m)
      {
        assert ids[..i + 1][..i] == ids[..i];
        Found(ids[i]);
        assert byId[ids[i]].Value().id == ids[i];
        objects := objects + [byId[ids[i]]];
      }
      assert ids[..|ids|] == ids;
    }

    // Whether the thread predicate raises for some candidate.
    method Refuses(objects: seq<Memory>, ghost scope: seq<Record>, thread: Option<string>, mode: Option<string>)
      returns (refused: bool)
      requires Represent(objects, scope)
      ensures refused <==> exists r :: r in scope && ThreadRefuses(thread, mode)(r)
    {
      var refusing := Select(objects, scope, ThreadRefuses(thread, mode));
      refused := refusing != [];
      if refused {
        assert refusing[0].Value() in Filter(ThreadRefuses(thread, mode), scope);
      }
    }

    method Choose(q: Request, thread: Option<string>, clock: string, objects: seq<Memory>, ghost scope: seq<Record>)
      returns (eligible: seq<Memory>, found: seq<Memory>)
      requires Represent(objects, scope)
      ensures forall m :: m in found ==> m in objects
      ensures var chosen := Filter(Eligible(q, clock), Filter(Visible(q.namespace, thread, q.mode), scope));
              |eligible| == |chosen| && Represent(found, Filter(Mentions(q), chosen))
    {
      ghost var seen := Filter(Visible(q.namespace, thread, q.mode), scope);
      eligible := Select(objects, scope, Visible(q.namespace, thread, q.mode));
      eligible := Select(eligible, seen, Eligible(q, clock));
      found := Select(eligible, Filter(Eligible(q, clock), seen), Mentions(q));
    }

    // The rows that the index and the namespace re-check give for a request.
    ghost function ScopeRows(q: Request): seq<Record>
      reads this
    {
      Filter(InNamespace(q.namespace), Fetch(rows, IndexAt(byNs, q.namespace.AsKey())))
    }

    method Search(q: Request, clock: string) returns (refused: bool, eligible: nat, found: seq<Memory>)
      requires Shape() && forall id :: id in IndexAt(byNs, q.namespace.AsKey()) ==> id in byId
      ensures forall m :: m in found ==> Current(m)
      ensures refused <==> NormalizeThread(q.thread).Refused? ||
                           exists r :: r in ScopeRows(q) && ThreadRefuses(NormalizeThread(q.thread).value, q.mode)(r)
      ensures !refused ==>
                var seen := Filter(Visible(q.namespace, NormalizeThread(q.thread).value, q.mode), ScopeRows(q));
                var chosen := Filter(Eligible(q, clock), seen);
                eligible == |chosen| && Represent(found, Filter(Mentions(q), chosen))
    {
      refused, eligible, found := true, 0, [];
      var objects := Gather(if q.namespace.AsKey() in byNs then byNs[q.namespace.AsKey()] else []);
      objects := Select(objects, Fetch(rows, IndexAt(byNs, q.namespace.AsKey())), InNamespace(q.namespace));
      var thread := NormalizeThread(q.thread);
      if thread.Ok? {
        refused := Refuses(objects, ScopeRows(q), thread.value, q.mode);
        if !refused {
          var chosen;
          chosen, found := Choose(q, thread.value, clock, objects, ScopeRows(q));
          eligible := |chosen|;
        }
      }
    }

    // Logging changes none of the objects found.
    method LogRecall(e: Event, found: seq<Memory>, ghost values: seq<Record>)
      requires Shape() && Represent(found, values) && forall m :: m in found ==> Current(m)
      modifies this`events, disk
      ensures Shape() && Represent(found, values) && forall m :: m in found ==> Current(m)
      ensures State() == Logged(old(State()), e)
      ensures disk.contents == old(disk.contents).After([Action.Emit(e)])
    {
      assert forall i :: 0 <= i < |found| ==> found[i] as object != disk;
      Emit(e);
    }

    method Narrow(q: Request, clock: string, at: string) returns (refused: bool, found: seq<Memory>)
      requires Shape() && forall id :: id in IndexAt(byNs, q.namespace.AsKey()) ==> id in byId
      modifies this`events, disk
      ensures Shape() && forall m :: m in found ==> Current(m)
      ensures var step := DoQuery(cfg, old(State()), q, clock, at);
              && State() == step.state
              && disk.contents == old(disk.contents).After(step.actions)
              && (refused <==> step.reply == BadThread)
              && (!refused ==> step.reply.Matches? && Represent(found, step.reply.rows))
    {
      ghost var reply := DoQuery(cfg, State(), q, clock, at).reply;
      AfterNone(disk.contents);
      var eligible;
      refused, eligible, found := Search(q, clock);
      if !refused {
        var e := Event(q.namespace, at, Recalled(RedactIfSecret(cfg, q.text), eligible, NormalizeThread(q.thread).value));
        LogRecall(e, found, reply.rows);
      }
    }

    // query: the exact answer of the model, as objects of this store.
    method Query(q: Request, clock: string, at: string) returns (refused: bool, found: seq<Memory>)
      requires Valid() && q.namespace.Valid()
      modifies this`events, disk
      ensures Valid() && forall m :: m in found ==> Current(m)
      ensures var step := DoQuery(cfg, old(State()), q, clock, at);
              && State() == step.state
              && disk.contents == old(disk.contents).After(step.actions)
              && (refused <==> step.reply == BadThread)
              && (!refused ==> step.reply.Matches? && Represent(found, step.reply.rows))
      ensures old(Durable()) ==> Durable()
    {
      ghost var step := DoQuery(cfg, State(), q, clock, at);
      StepFacts(disk.contents, State(), StoreModel.Op.Query(q, clock, at), step);
      IdsUnderNoDup(rows, q.namespace.AsKey());
      refused, found := Narrow(q, clock, at);
      IsSound(step.state, used);
    }

    // import_memories: each readable record is added as a new memory.
    method ImportMemories(records: seq<Wire>, tokens: seq<Exchange.Token>) returns (imported: nat, rejected: nat)
      requires Valid() && |records| == |tokens|
      requires forall i :: 0 <= i < |tokens| ==> tokens[i].id != "" && tokens[i].id !in used
      requires forall i, j :: 0 <= i < j < |tokens| ==> tokens[i].id != tokens[j].id
      modifies this`byId, this`keys, this`byNs, this`events, this`rows, this`used, this`repr, disk
      ensures Valid()
      ensures var t := Exchange.Import(cfg, old(State()), records, tokens);
              && State() == t.state && imported == t.imported && rejected == t.rejected
              && disk.contents == old(disk.contents).After(t.actions)
      ensures old(Durable()) ==> Durable()
    {
      imported, rejected := 0, 0;
      ghost var t, before := Exchange.Tally(State(), [], 0, 0), disk.contents;
      AfterNone(before);
      for i := 0 to |records|
        invariant Valid() && fresh(repr - old(repr))
        invariant forall k :: i <= k < |tokens| ==> tokens[k].id !in used
        invariant t == Exchange.Import(cfg, old(State()), records[..i], tokens[..i])
        invariant State() == t.state && imported == t.imported && rejected == t.rejected
        invariant disk.contents == before.After(t.actions)
        invariant old(Durable()) ==> Durable()
      {
        var accepted;
        ghost var u, more;
        accepted, u, more := ImportRecord(t, records[i], tokens[i]);
        AfterSplit(before, t.actions, more);
        PrefixOfPrefix(records, i + 1, i);
        PrefixOfPrefix(tokens, i + 1, i);
        if accepted {
          imported := imported + 1;
        } else {
          rejected := rejected + 1;
        }
        t := u;
      }
      FullPrefix(records, |records|);
      FullPrefix(tokens, |records|);
    }

    method AddNew(r: Record, token: Exchange.Token, ghost step: Step) returns (accepted: bool)
      requires Valid() && WellFormed(r) && token.id != "" && token.id !in used
      requires step == DoAdd(cfg, State(), r, token.id, token.at)
      modifies this`byId, this`keys, this`byNs, this`events, this`rows, this`used, this`repr, disk
      ensures Valid() && fresh(repr - old(repr)) && used == old(used) + {token.id}
      ensures State() == step.state && disk.contents == old(disk.contents).After(step.actions)
      ensures accepted <==> step.reply.Stored?
      ensures old(Durable()) ==> Durable()
    {
      var candidate := new Memory(r);
      assert candidate.Value() == r && step == DoAdd(cfg, State(), candidate.Value(), token.id, token.at);
      var stored, reason := Add(candidate, token.id, token.at);
      assert State() == step.state && step.reply == if stored == null then Refusal(reason) else Stored(stored.Value());
      accepted := stored != null;
    }

    method ImportRecord(ghost t: Exchange.Tally, record: Wire, token: Exchange.Token)
      returns (accepted: bool, ghost u: Exchange.Tally, ghost more: seq<Action>)
      requires Valid() && State() == t.state && token.id != "" && token.id !in used
      modifies this`byId, this`keys, this`byNs, this`events, this`rows, this`used, this`repr, disk
      ensures Valid() && fresh(repr - old(repr)) && used <= old(used) + {token.id}
      ensures u == Exchange.ImportOne(cfg, t, record, token) && State() == u.state
      ensures u.imported == t.imported + (if accepted then 1 else 0)
      ensures u.rejected == t.rejected + (if accepted then 0 else 1)
      ensures u.actions == t.actions + more && disk.contents == old(disk.contents).After(more)
      ensures old(Durable()) ==> Durable()
    {
      accepted, u, more := false, Exchange.ImportOne(cfg, t, record, token), [];
      AfterNone(disk.contents);
      var read := MemoryFromDict(record);
      if read.Some? {
        Exchange.ClearedIsWellFormed(record);
        var m := Exchange.Cleared(read.value);
        ghost var step := DoAdd(cfg, t.state, m, token.id, token.at);
        more := step.actions;
        Exchange.ImportedOrRejected(cfg, t, record, token);
        accepted := AddNew(m, token, step);
      }
    }

    // ----- Opening -----

    // Opening any two log files, whatever they hold. What is written next is only safe in files that are
    // empty or end in a newline.
    constructor OpenLog(cfg: Config, disk: Disk)
      requires Lawful(cfg) && disk.contents.Log?
      ensures Valid() && this.cfg == cfg && this.disk == disk && fresh(repr)
      ensures State() == Journal.Load(disk.contents.files)
      ensures used == set id | id in Journal.Order(disk.contents.files.memories)
      ensures Journal.Closed(disk.contents.files) && NoDup(Journal.Order(disk.contents.files.memories)) ==> Durable()
    {
      this.cfg, this.disk := cfg, disk;
      byId, keys, byNs, events, rows, used, repr := map[], [], map[], [], [], {}, {};
      new;
      used := set id | id in Journal.Order(disk.contents.files.memories);
      LoadedLog(disk.contents.files, used);
      LoadLog(disk.contents.files);
    }

    // JsonlStore._load
    method LoadLog(files: Journal.Files)
      requires Shape() && State() == EMPTY && repr == {}
      modifies this`byId, this`keys, this`repr, this`rows, this`byNs, this`events
      ensures Shape() && fresh(repr) && State() == Journal.Load(files)
    {
      Journal.LatestSound(files.memories);
      var latest, order := Replay(files.memories);
      IndexOrder(order, latest);
      events := ReadAudit(files.events);
    }

    method IndexNew(r: Record)
      requires Shape()
      modifies this`byId, this`keys, this`repr, this`rows, this`byNs
      ensures Shape() && fresh(repr - old(repr)) && State() == Indexed(old(State()), r)
    {
      var m := new Memory(r);
      Index(m);
    }

    method IndexBorn(id: string, latest: map<string, Record>, ghost earlier: seq<string>)
      requires Shape() && Journal.Sound(latest) && State() == Journal.IndexAll(earlier, latest)
      modifies this`byId, this`keys, this`repr, this`rows, this`byNs
      ensures Shape() && fresh(repr - old(repr)) && State() == Journal.IndexAll(earlier + [id], latest)
    {
      Journal.IndexNext(earlier, id, latest);
      if id in latest {
        IndexNew(latest[id]);
      }
    }

    method IndexOrder(order: seq<string>, latest: map<string, Record>)
      requires Shape() && State() == EMPTY && repr == {} && Journal.Sound(latest)
      modifies this`byId, this`keys, this`repr, this`rows, this`byNs
      ensures Shape() && fresh(repr) && State() == Journal.IndexAll(order, latest)
    {
      for i := 0 to |order|
        invariant Shape() && fresh(repr) && State() == Journal.IndexAll(order[..i], latest)
      {
        PrefixNext(order, i);
        IndexBorn(order[i], latest, order[..i]);
      }
      FullPrefix(order, |order|);
    }

    // Opening any table with a key for every row: rows that cannot be read are skipped.
    constructor OpenTable(cfg: Config, disk: Disk)
      requires Lawful(cfg) && disk.contents.Database? && Table.Openable(disk.contents.db)
      ensures Valid() && this.cfg == cfg && this.disk == disk && fresh(repr)
      ensures State() == Table.Load(disk.contents.db)
      ensures used == set id | id in Map(Table.KeyOfSlot, disk.contents.db.memories)
      ensures forall was :: Inv(was) && Table.Synced(disk.contents.db, was) ==>
                              && (Journal.SameStore(State(), was) <==> forall r :: r in was.rows ==> Table.Settled(r))
                              && (Durable() <==> forall r :: r in was.rows ==> Table.Settled(r))
    {
      this.cfg, this.disk := cfg, disk;
      byId, keys, byNs, events, rows, used, repr := map[], [], map[], [], [], {}, {};
      new;
      Table.LoadIsValid(disk.contents.db);
      used := set id | id in Map(Table.KeyOfSlot, disk.contents.db.memories);
      LoadTable(disk.contents.db);
      IsSound(Table.Load(disk.contents.db), used);
      TableReopened(disk.contents.db);
    }

    lemma IsSound(s: State, drawn: set<string>)
      requires Shape() && Lawful(cfg) && State() == s && Inv(s)
      requires used == drawn && forall id :: id in Ids(s.rows) ==> id in drawn
      ensures Valid()
    {
    }

    // One row of the table; an unreadable one is skipped.
    method LoadRow(row: Table.Row)
      requires Shape()
      modifies this`byId, this`keys, this`repr, this`rows, this`byNs
      ensures Shape() && fresh(repr - old(repr))
      ensures State() == if Table.RowToMemory(row).Some? then Indexed(old(State()), Table.RowToMemory(row).value)
                         else old(State())
    {
      var read := Table.RowToMemory(row);
      if read.Some? {
        IndexNew(read.value);
      }
    }

    // SqliteStore._load: rows in rowid order, unreadable ones skipped.
    method LoadTable(db: Table.Db)
      requires Shape() && State() == EMPTY && repr == {}
      modifies this`byId, this`keys, this`repr, this`rows, this`byNs, this`events
      ensures Shape() && fresh(repr) && State() == Table.Load(db)
    {
      var slots := Sort(Table.ByRowid, db.memories);
      for i := 0 to |slots|
        invariant Shape() && fresh(repr) && State() == Table.IndexSlots(slots[..i])
      {
        assert slots[..i + 1][..i] == slots[..i];
        LoadRow(slots[i].row);
      }
      assert slots[..|slots|] == slots;
      events := Map(Table.EventOfRow, db.events);
    }

    // What the model says of any operation on this store.
    lemma StepFacts(v: DiskView, s: State, op: Op, step: Step)
      requires Valid() && s == State() && FreshOp(op, used) && step == Do(cfg, s, op)
      ensures Inv(step.state)
      ensures forall id :: id in Ids(step.state.rows) ==> id in used || (op.Add? && id == op.newId)
      ensures v.Restores(s, used) ==> v.After(step.actions).Restores(step.state, if op.Add? then used + {op.newId} else used)
    {
      assert op.Add? || used + {} == used;
      StepRestores(cfg, v, s, used, op);
      DoKeepsInv(cfg, s, op);
      IdsAfter(cfg, s, op);
    }
  }

  lemma TableReopened(db: Table.Db)
    ensures forall was :: Inv(was) && Table.Synced(db, was) ==>
                            && (Journal.SameStore(Table.Load(db), was) <==> forall r :: r in was.rows ==> Table.Settled(r))
                            && (Table.Synced(db, Table.Load(db)) <==> forall r :: r in was.rows ==> Table.Settled(r))
  {
    forall was | Inv(was) && Table.Synced(db, was)
      ensures (Journal.SameStore(Table.Load(db), was) <==> forall r :: r in was.rows ==> Table.Settled(r))
              && (Table.Synced(db, Table.Load(db)) <==> forall r :: r in was.rows ==> Table.Settled(r))
    {
      Table.LoadRestores(db, was);
    }
  }

  // A disk in step with a live state stays in step with it through any operation.
  lemma StepRestores(cfg: Config, v: DiskView, s: State, used: set<string>, op: Op)
    requires Lawful(cfg) && Inv(s) && FreshOp(op, used) && FreshOp(op, set id | id in Ids(s.rows))
    ensures v.Restores(s, used) ==>
              v.After(Do(cfg, s, op).actions).Restores(Do(cfg, s, op).state, used + if op.Add? then {op.newId} else {})
  {
    if v.Restores(s, used) {
      match v
      case Nothing =>
      case Log(files) => Journal.StepSynced(cfg, files, s, used, op);
      case Database(db) => Table.StepSynced(cfg, db, s, op);
    }
  }
}
