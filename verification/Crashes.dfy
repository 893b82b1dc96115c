/** A store reopened on torn logs that goes on writing: what the next reload loses, and exactly when it loses nothing. */
module Crashes {
  import opened Seqs
  import opened Models
  import opened Policy
  import opened Serialize
  import opened StoreModel
  import opened StoreLaws
  import opened Journal
  import opened Losses

  // ----- What is appended -----

  function LinesFor(a: Action): seq<Line> {
    match a
    case Persist(r) => [Entry(MemoryToDict(r))]
    case Update(r) => [Entry(MemoryToDict(r))]
    case Erase(id) => [Tombstone(id)]
    case Emit(_) => []
  }

  // The memory lines that a list of hook calls writes.
  function MemoryLines(actions: seq<Action>): seq<Line> {
    if actions == [] then [] else MemoryLines(actions[..|actions| - 1]) + LinesFor(actions[|actions| - 1])
  }

  function EventLines(actions: seq<Action>): seq<EventLine> {
    Map(AuditOf, Emitted(actions))
  }

  // What a file holds once more lines are written behind its own: of an open one, the last line and the first
  // new one are lost together.
  function Continued<L>(lines: seq<L>, open: bool, more: seq<L>, garbled: L): seq<L> {
    if open && lines != [] && more != [] then lines[..|lines| - 1] + [garbled] + more[1..] else lines + more
  }

  lemma ContinueOne<L>(lines: seq<L>, open: bool, more: seq<L>, line: L, garbled: L)
    ensures Behind(Continued(lines, open, more, garbled), open && more == [], line, garbled) ==
            Continued(lines, open, more + [line], garbled)
  {
  }

  // g holds what f holds once the hook calls have written to it.
  ghost predicate Holding(g: Files, f: Files, actions: seq<Action>) {
    && g.memories == Continued(f.memories, f.openMemories, MemoryLines(actions), Junk)
    && (g.openMemories <==> f.openMemories && MemoryLines(actions) == [])
    && g.events == Continued(f.events, f.openEvents, EventLines(actions), Torn)
    && (g.openEvents <==> f.openEvents && EventLines(actions) == [])
  }

  lemma OneMoreAction(g: Files, f: Files, actions: seq<Action>, a: Action)
    requires Holding(g, f, actions)
    ensures Holding(Append(g, a), f, actions + [a])
  {
    assert (actions + [a])[..|actions|] == actions;
    if a.Emit? {
      ContinueOne(f.events, f.openEvents, EventLines(actions), Audit(a.event), Torn);
      assert EventLines(actions + [a]) == EventLines(actions) + [Audit(a.event)];
    } else {
      ContinueOne(f.memories, f.openMemories, MemoryLines(actions), LinesFor(a)[0], Junk);
      assert EventLines(actions + [a]) == EventLines(actions);
    }
  }

  lemma {:induction false} AppendedLines(f: Files, actions: seq<Action>)
    ensures Holding(AppendAll(f, actions), f, actions)
  {
    if actions != [] {
      var init, a := actions[..|actions| - 1], actions[|actions| - 1];
      AppendedLines(f, init);
      OneMoreAction(AppendAll(f, init), f, init, a);
      assert actions == init + [a];
    }
  }

  // ----- Runs that begin somewhere -----

  // Added ids are neither used before nor drawn twice.
  predicate LegalFrom(used: set<string>, ops: seq<Op>) {
    ops == [] ||
    (LegalFrom(used, ops[..|ops| - 1]) && FreshOp(ops[|ops| - 1], used + Drawn(ops[..|ops| - 1])))
  }

  // Files in step with a store stay in step with it through every run.
  lemma {:induction false} ContinuedSynced(cfg: Config, f: Files, s: State, used: set<string>, ops: seq<Op>)
    requires Lawful(cfg) && Inv(s) && Synced(f, s, used) && LegalFrom(used, ops)
    ensures Inv(Run(cfg, s, ops))
    ensures Synced(AppendAll(f, Actions(cfg, s, ops)), Run(cfg, s, ops), used + Drawn(ops))
  {
    if ops == [] {
      assert used + Drawn(ops) == used;
    } else {
      var init, op := ops[..|ops| - 1], ops[|ops| - 1];
      ContinuedSynced(cfg, f, s, used, init);
      DrawnStep(ops);
      var t, g := Run(cfg, s, init), AppendAll(f, Actions(cfg, s, init));
      AppendAllSplit(f, Actions(cfg, s, init), Do(cfg, t, op).actions);
      RowsAreUsed(g, t, used + Drawn(init));
      StillFresh(op, t, used + Drawn(init));
      StepSynced(cfg, g, t, used + Drawn(init), op);
      DoKeepsInv(cfg, t, op);
      assert used + Drawn(init) + (if op.Add? then {op.newId} else {}) == used + Drawn(ops);
    }
  }

  lemma RowsAreUsed(f: Files, s: State, used: set<string>)
    requires Synced(f, s, used)
    ensures forall id :: id in Ids(s.rows) ==> id in used
  {
  }

  lemma StillFresh(op: Op, s: State, used: set<string>)
    requires FreshOp(op, used) && forall id :: id in Ids(s.rows) ==> id in used
    ensures FreshOp(op, set id | id in Ids(s.rows))
  {
  }

  // The same files, had the newlines at their ends been written.
  function Ended(f: Files): Files {
    f.(openMemories := false, openEvents := false)
  }

  lemma EndedSynced(f: Files, used: set<string>)
    requires NoDup(Order(f.memories)) && forall id :: id in Order(f.memories) ==> id in used
    ensures Inv(Load(f)) && Synced(Ended(f), Load(f), used)
  {
    LatestSound(f.memories);
    IndexAllInv(Order(f.memories), Latest(f.memories));
  }

  // ----- The exact condition -----

  // The memories survive if nothing is written behind an open line, or if the later lines heal the loss of
  // that line and the first one written behind it.
  ghost predicate MemoriesSurvive(f: Files, written: seq<Line>) {
    f.openMemories && f.memories != [] && written != [] ==>
      var n := |f.memories| - 1;
      Healed(f.memories[..n], [f.memories[n], written[0]], written[1..])
  }

  predicate EventsSurvive(f: Files, written: seq<EventLine>) {
    f.openEvents && f.events != [] ==> written == []
  }

  lemma SameRowsSameMemories(a: State, b: State)
    requires Inv(a) && Inv(b)
    ensures SameMemories(a, b) <==> a.rows == b.rows
  {
  }

  lemma MemoriesSurviveIff(f: Files, written: seq<Line>)
    requires NoDup(Order(f.memories + written))
    ensures Replayed(Continued(f.memories, f.openMemories, written, Junk)).rows == Replayed(f.memories + written).rows
            <==> MemoriesSurvive(f, written)
  {
    if f.openMemories && f.memories != [] && written != [] {
      var n := |f.memories| - 1;
      var kept, lost, later := f.memories[..n], [f.memories[n], written[0]], written[1..];
      assert f.memories + written == kept + lost + later;
      JunkSkipped(kept, later);
      LossIff(kept, lost, later);
    }
  }

  lemma {:induction false} ReadSplit(a: seq<EventLine>, b: seq<EventLine>)
    ensures ReadEvents(a + b) == ReadEvents(a) + ReadEvents(b)
  {
    if b == [] {
      assert a + b == a;
    } else {
      assert (a + b)[..|a + b| - 1] == a + b[..|b| - 1];
      ReadSplit(a, b[..|b| - 1]);
    }
  }

  lemma FewerEvents(kept: seq<EventLine>, last: EventLine, written: seq<EventLine>)
    requires written != [] && |ReadEvents(written)| == |written|
    ensures |ReadEvents(kept + [Torn] + written[1..])| < |ReadEvents(kept + [last] + written)|
  {
    ReadSplit(kept + [last], written);
    ReadSplit(kept, [last]);
    ReadSplit(kept + [Torn], written[1..]);
    ReadSplit(kept, [Torn]);
    NothingTorn();
    AllRead(written[1..]);
  }

  lemma NothingTorn()
    ensures ReadEvents([Torn]) == []
  {
    assert [Torn][..0] == [];
  }

  lemma EventsSurviveIff(f: Files, written: seq<EventLine>)
    requires |ReadEvents(written)| == |written|
    ensures ReadEvents(Continued(f.events, f.openEvents, written, Torn)) == ReadEvents(f.events + written)
            <==> EventsSurvive(f, written)
  {
    if f.openEvents && f.events != [] && written != [] {
      var n := |f.events| - 1;
      assert f.events == f.events[..n] + [f.events[n]];
      FewerEvents(f.events[..n], f.events[n], written);
    }
  }

  // What the store that opened f and went on is, and what the files it leaves behind.
  function LiveAfter(cfg: Config, f: Files, ops: seq<Op>): State {
    Run(cfg, Load(f), ops)
  }

  function FilesAfter(cfg: Config, f: Files, ops: seq<Op>): Files {
    AppendAll(f, Actions(cfg, Load(f), ops))
  }

  ghost predicate Continues(f: Files, used: set<string>, ops: seq<Op>) {
    NoDup(Order(f.memories)) && (forall id :: id in Order(f.memories) ==> id in used) && LegalFrom(used, ops)
  }

  // With the newlines in place, reloading gives the live store.
  lemma EndedReloads(cfg: Config, f: Files, used: set<string>, ops: seq<Op>)
    requires Lawful(cfg) && Continues(f, used, ops)
    ensures var live, acts := LiveAfter(cfg, f, ops), Actions(cfg, Load(f), ops);
            && Inv(live)
            && NoDup(Order(f.memories + MemoryLines(acts)))
            && Replayed(f.memories + MemoryLines(acts)).rows == live.rows
            && ReadEvents(f.events + EventLines(acts)) == live.events
  {
    var acts := Actions(cfg, Load(f), ops);
    EndedSynced(f, used);
    ContinuedSynced(cfg, Ended(f), Load(f), used, ops);
    AppendedLines(Ended(f), acts);
    MirrorReplays(AppendAll(Ended(f), acts), LiveAfter(cfg, f, ops));
  }

  lemma AllLogged(cfg: Config, f: Files, used: set<string>, ops: seq<Op>)
    requires Lawful(cfg) && Continues(f, used, ops)
    ensures var written := EventLines(Actions(cfg, Load(f), ops));
            |ReadEvents(written)| == |written|
  {
    var acts := Actions(cfg, Load(f), ops);
    EndedReloads(cfg, f, used, ops);
    RunEmits(cfg, Load(f), ops);
    ReadSplit(f.events, EventLines(acts));
  }

  // A store opened on any files without a repeated birth, torn or not, goes on by a legal run. The next
  // reload gives its memories exactly if nothing was written behind an open line or the loss is healed, and
  // its events exactly if none was written behind an open line.
  lemma ReloadIff(cfg: Config, f: Files, used: set<string>, ops: seq<Op>)
    requires Lawful(cfg) && Continues(f, used, ops)
    ensures var live, acts := LiveAfter(cfg, f, ops), Actions(cfg, Load(f), ops);
            var reloaded := Load(FilesAfter(cfg, f, ops));
            && (SameMemories(reloaded, live) <==> MemoriesSurvive(f, MemoryLines(acts)))
            && (reloaded.events == live.events <==> EventsSurvive(f, EventLines(acts)))
  {
    var acts := Actions(cfg, Load(f), ops);
    EndedReloads(cfg, f, used, ops);
    AllLogged(cfg, f, used, ops);
    AppendedLines(f, acts);
    MemoriesSurviveIff(f, MemoryLines(acts));
    EventsSurviveIff(f, EventLines(acts));
    LoadIsValid(FilesAfter(cfg, f, ops));
    SameRowsSameMemories(Load(FilesAfter(cfg, f, ops)), LiveAfter(cfg, f, ops));
  }

  // ----- What follows -----

  // Files that end in their newlines, or to which nothing is written, reload to the live store.
  lemma WholeFilesReload(cfg: Config, f: Files, used: set<string>, ops: seq<Op>)
    requires Lawful(cfg) && Continues(f, used, ops)
    requires Closed(f) || Actions(cfg, Load(f), ops) == []
    ensures SameStore(Load(FilesAfter(cfg, f, ops)), LiveAfter(cfg, f, ops))
  {
    ReloadIff(cfg, f, used, ops);
  }

  lemma {:induction false} LogsWhatItWrites(cfg: Config, s: State, ops: seq<Op>)
    requires Emitted(Actions(cfg, s, ops)) == []
    ensures Actions(cfg, s, ops) == []
  {
    if ops != [] {
      var init := ops[..|ops| - 1];
      var acts := Do(cfg, Run(cfg, s, init), ops[|ops| - 1]).actions;
      EmittedSplit(Actions(cfg, s, init), acts);
      LogsWhatItWrites(cfg, s, init);
      ActionShape(cfg, Run(cfg, s, init), ops[|ops| - 1]);
      EmittedShort(acts);
    }
  }

  // A torn event log gives the live store only if nothing happened after it was opened.
  lemma TornEventsIff(cfg: Config, f: Files, used: set<string>, ops: seq<Op>)
    requires Lawful(cfg) && Continues(f, used, ops) && f.openEvents && f.events != []
    ensures SameStore(Load(FilesAfter(cfg, f, ops)), LiveAfter(cfg, f, ops)) <==> Actions(cfg, Load(f), ops) == []
  {
    var acts := Actions(cfg, Load(f), ops);
    ReloadIff(cfg, f, used, ops);
    if EventLines(acts) == [] {
      assert |Emitted(acts)| == |EventLines(acts)|;
      LogsWhatItWrites(cfg, Load(f), ops);
    }
  }

  // Cutting the logs of a run anywhere, reopening and going on: the store reopens in an earlier state of the
  // run, and the exact condition holds of what it does next.
  lemma CutAndContinued(cfg: Config, before: seq<Op>, n: nat, f: Files, ops: seq<Op>) returns (k: nat)
    requires Lawful(cfg) && Legal(before) && LegalFrom(Drawn(before), ops)
    requires n <= |FilesOf(cfg, before).memories| && HoldsLines(f, FilesOf(cfg, before).memories[..n])
    ensures k <= |before| && SameMemories(Load(f), Run(cfg, EMPTY, before[..k]))
    ensures var live, acts := LiveAfter(cfg, f, ops), Actions(cfg, Load(f), ops);
            var reloaded := Load(FilesAfter(cfg, f, ops));
            && (SameMemories(reloaded, live) <==> MemoriesSurvive(f, MemoryLines(acts)))
            && (reloaded.events == live.events <==> EventsSurvive(f, EventLines(acts)))
  {
    k := CutReplaysEarlierState(cfg, before, n, f);
    CutContinues(cfg, before, n, f, ops);
    ReloadIff(cfg, f, Drawn(before), ops);
  }

  lemma CutContinues(cfg: Config, before: seq<Op>, n: nat, f: Files, ops: seq<Op>)
    requires Lawful(cfg) && Legal(before) && LegalFrom(Drawn(before), ops)
    requires n <= |FilesOf(cfg, before).memories| && HoldsLines(f, FilesOf(cfg, before).memories[..n])
    ensures Continues(f, Drawn(before), ops)
  {
    RunSynced(cfg, before);
    CutBirths(FilesOf(cfg, before).memories, n, Drawn(before));
    JunkBears(FilesOf(cfg, before).memories[..n]);
  }

  lemma CutBirths(lines: seq<Line>, n: nat, used: set<string>)
    requires n <= |lines| && NoDup(Order(lines)) && forall id :: id in Order(lines) ==> id in used
    ensures NoDup(Order(lines[..n])) && forall id :: id in Order(lines[..n]) ==> id in used
  {
    SplitSeq(lines, n);
    StartOfBirths(lines[..n], lines[n..], lines);
  }

  lemma StartOfBirths(a: seq<Line>, b: seq<Line>, lines: seq<Line>)
    requires lines == a + b && NoDup(Order(lines))
    ensures NoDup(Order(a)) && forall id :: id in Order(a) ==> id in Order(lines)
  {
    OrderGrows(a, b);
    MembersOfPrefix(Order(a), Order(lines));
  }

  lemma JunkBears(lines: seq<Line>)
    ensures Order(lines + [Junk]) == Order(lines)
  {
    Extended(lines, Junk);
  }

  // ----- Witnesses -----

  // Both files end in a torn line.
  predicate EndTorn(f: Files) {
    && f.openMemories && f.memories != [] && f.memories[|f.memories| - 1] == Junk
    && f.openEvents && f.events != [] && f.events[|f.events| - 1] == Torn
  }

  function AddedRow(cfg: Config, m: Record, id: string, at: string): Record
    requires Review(m, cfg).Accepted?
  {
    Review(m, cfg).record.(id := id, createdAt := at, updatedAt := at)
  }

  lemma OneStep(cfg: Config, s: State, op: Op)
    ensures Run(cfg, s, [op]) == Do(cfg, s, op).state && Actions(cfg, s, [op]) == Do(cfg, s, op).actions
  {
    assert [op][..0] == [];
    assert Run(cfg, s, []) == s && Actions(cfg, s, []) == [];
  }

  lemma AddWrites(cfg: Config, s: State, m: Record, id: string, at: string)
    requires Inv(s) && Review(m, cfg).Accepted? && id !in Ids(s.rows)
    ensures var r, step := AddedRow(cfg, m, id, at), DoAdd(cfg, s, m, id, at);
            && MemoryLines(step.actions) == [Entry(MemoryToDict(r))] && |EventLines(step.actions)| == 1
            && step.state.rows == s.rows + [r]
  {
    var r, acts := AddedRow(cfg, m, id, at), DoAdd(cfg, s, m, id, at).actions;
    TwoActions(acts);
  }

  lemma TwoActions(acts: seq<Action>)
    requires |acts| == 2 && !acts[0].Emit? && acts[1].Emit?
    ensures MemoryLines(acts) == LinesFor(acts[0]) && EventLines(acts) == [Audit(acts[1].event)]
  {
    assert acts[..1][..0] == [];
    assert MemoryLines(acts[..1]) == [] + LinesFor(acts[0]);
    EmittedShort(acts);
  }

  lemma LastLineOnly<L>(lines: seq<L>, more: seq<L>, garbled: L)
    requires lines != [] && lines[|lines| - 1] == garbled && |more| == 1
    ensures Continued(lines, true, more, garbled) == lines
  {
  }

  lemma EndsOnly(f: Files, acts: seq<Action>)
    requires EndTorn(f) && |MemoryLines(acts)| == 1 && |EventLines(acts)| == 1
    ensures AppendAll(f, acts) == Ended(f)
  {
    AppendedLines(f, acts);
    LastLineOnly(f.memories, MemoryLines(acts), Junk);
    LastLineOnly(f.events, EventLines(acts), Torn);
  }

  lemma NewToStore(f: Files, id: string)
    requires NoDup(Order(f.memories)) && id !in Order(f.memories)
    ensures Inv(Load(f)) && id !in Ids(Load(f).rows)
  {
    EndedSynced(f, KnownTo(f.memories));
    RowsAreUsed(Ended(f), Load(f), KnownTo(f.memories));
  }

  // The condition can fail: a memory accepted by a store that was opened on torn logs is lost. All the add
  // does to the files is to end their torn lines.
  lemma OneAddIsLost(cfg: Config, f: Files, m: Record, id: string, at: string)
    requires EndTorn(f) && NoDup(Order(f.memories)) && Review(m, cfg).Accepted? && id !in Order(f.memories)
    ensures FilesAfter(cfg, f, [Add(m, id, at)]) == Ended(f)
    ensures Load(FilesAfter(cfg, f, [Add(m, id, at)])) == Load(f)
    ensures LiveAfter(cfg, f, [Add(m, id, at)]).rows == Load(f).rows + [AddedRow(cfg, m, id, at)]
  {
    NewToStore(f, id);
    OneStep(cfg, Load(f), Add(m, id, at));
    AddWrites(cfg, Load(f), m, id, at);
    EndsOnly(f, DoAdd(cfg, Load(f), m, id, at).actions);
  }

  // And it can hold although a line is lost: adding a memory and forgetting it again leaves the same memories.
  lemma ForgettingHeals(cfg: Config, f: Files, m: Record, id: string, at: string)
    requires Lawful(cfg) && WellFormed(m) && id != "" && Review(m, cfg).Accepted?
    requires EndTorn(f) && NoDup(Order(f.memories)) && id !in Order(f.memories)
    ensures var ops := [Add(m, id, at), Forget(id, at)];
            && FilesAfter(cfg, f, ops).memories == f.memories + [Tombstone(id)]
            && SameMemories(Load(FilesAfter(cfg, f, ops)), LiveAfter(cfg, f, ops))
  {
    var add, s := Add(m, id, at), Load(f);
    var t := DoAdd(cfg, s, m, id, at).state;
    NewToStore(f, id);
    OneAddIsLost(cfg, f, m, id, at);
    OneStep(cfg, s, add);
    RunSplit(cfg, s, [add], [Forget(id, at)]);
    assert [add] + [Forget(id, at)] == [add, Forget(id, at)];
    OneStep(cfg, t, Forget(id, at));
    AppendAllSplit(f, Actions(cfg, s, [add]), DoForget(t, id, at).actions);
    AddWrites(cfg, s, m, id, at);
    ForgetWrites(Ended(f), s, t, AddedRow(cfg, m, id, at), at);
    DoKeepsInv(cfg, s, add);
    DoKeepsInv(cfg, t, Forget(id, at));
    LoadIsValid(FilesAfter(cfg, f, [add, Forget(id, at)]));
  }

  lemma LastIsDropped(rows: seq<Record>, r: Record)
    requires r.id !in Ids(rows)
    ensures Lookup(rows + [r], r.id).Some? && Drop(rows + [r], r.id) == rows
  {
    assert Ids(rows + [r])[|rows|] == r.id;
    FilterAppend(NotId(r.id), rows, [r]);
    forall x | x in rows ensures NotId(r.id)(x) {
      IdMembers(rows, x);
    }
    FilterAll(NotId(r.id), rows);
    FilterNone(NotId(r.id), [r]);
  }

  lemma ErasingTheUnknown(lines: seq<Line>, id: string)
    requires id !in Order(lines)
    ensures Latest(lines + [Tombstone(id)]) == Latest(lines) && Order(lines + [Tombstone(id)]) == Order(lines)
  {
    Extended(lines, Tombstone(id));
    LatestInOrder(lines);
  }

  lemma ForgetWrites(f: Files, s: State, t: State, r: Record, at: string)
    requires Closed(f) && Load(f).rows == s.rows
    requires t.rows == s.rows + [r] && r.id !in Ids(s.rows) && r.id !in Order(f.memories)
    ensures var g, u := AppendAll(f, DoForget(t, r.id, at).actions), DoForget(t, r.id, at).state;
            g.memories == f.memories + [Tombstone(r.id)] && u.rows == s.rows && Load(g).rows == s.rows
  {
    LastIsDropped(s.rows, r);
    var acts := DoForget(t, r.id, at).actions;
    TwoActions(acts);
    AppendedLines(f, acts);
    ErasingTheUnknown(f.memories, r.id);
  }
}
