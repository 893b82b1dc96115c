/** Two stores that opened one empty directory and append to the same files, line by line. */
module Writers {
  import opened Seqs
  import opened Models
  import opened Policy
  import opened StoreModel
  import opened StoreLaws
  import opened Journal

  // merged is an interleaving of a and b.
  ghost predicate Shuffle<T>(merged: seq<T>, a: seq<T>, b: seq<T>)
    decreases |merged|
  {
    if merged == [] then a == [] && b == []
    else
      var init, last := merged[..|merged| - 1], merged[|merged| - 1];
      || (a != [] && a[|a| - 1] == last && Shuffle(init, a[..|a| - 1], b))
      || (b != [] && b[|b| - 1] == last && Shuffle(init, a, b[..|b| - 1]))
  }

  function Among(ids: set<string>): string -> bool {
    (id: string) => id in ids
  }

  function RowAmong(ids: set<string>): Record -> bool {
    (r: Record) => r.id in ids
  }

  // Every line speaks of an id in ids, or of none.
  ghost predicate Confined(lines: seq<Line>, ids: set<string>) {
    forall i :: 0 <= i < |lines| ==>
                  match lines[i]
                  case Tombstone(id) => id in ids
                  case Entry(_) => Read(lines[i]).Some? ==> Read(lines[i]).value.id in ids
                  case Junk => true
  }

  lemma {:induction false} ConfinedReplay(lines: seq<Line>, ids: set<string>)
    requires Confined(lines, ids)
    ensures forall id :: id in Latest(lines) ==> id in ids
    ensures forall id :: id in Order(lines) ==> id in ids
  {
    if lines != [] {
      ConfinedReplay(lines[..|lines| - 1], ids);
    }
  }

  // What the merged log says about one writer's ids is what that writer's own log says.
  ghost predicate Projects(merged: seq<Line>, own: seq<Line>, ids: set<string>) {
    && (forall id :: id in ids ==> (id in Latest(merged) <==> id in Latest(own)))
    && (forall id :: id in ids && id in Latest(own) ==> Latest(merged)[id] == Latest(own)[id])
    && Filter(Among(ids), Order(merged)) == Order(own)
  }

  lemma OwnLine(merged: seq<Line>, own: seq<Line>, ids: set<string>, line: Line)
    requires Projects(merged, own, ids) && Confined([line], ids)
    ensures Projects(merged + [line], own + [line], ids)
  {
    Extended(merged, line);
    Extended(own, line);
    assert [line][0] == line;
    if Read(line).Some? {
      var id := Read(line).value.id;
      FilterAppend(Among(ids), Order(merged), [id]);
    }
  }

  lemma ForeignLine(merged: seq<Line>, own: seq<Line>, ids: set<string>, others: set<string>, line: Line)
    requires Projects(merged, own, ids) && Confined([line], others) && ids !! others
    ensures Projects(merged + [line], own, ids)
  {
    Extended(merged, line);
    assert [line][0] == line;
    if Read(line).Some? {
      var id := Read(line).value.id;
      FilterAppend(Among(ids), Order(merged), [id]);
    }
  }

  lemma {:induction false} ShuffleProjects(merged: seq<Line>, a: seq<Line>, b: seq<Line>, ia: set<string>, ib: set<string>)
    requires Shuffle(merged, a, b) && Confined(a, ia) && Confined(b, ib) && ia !! ib
    ensures Projects(merged, a, ia) && Projects(merged, b, ib)
    ensures Confined(merged, ia + ib)
    decreases |merged|
  {
    if merged != [] {
      var init, last := merged[..|merged| - 1], merged[|merged| - 1];
      assert merged == init + [last];
      if a != [] && a[|a| - 1] == last && Shuffle(init, a[..|a| - 1], b) {
        var a' := a[..|a| - 1];
        assert a == a' + [last];
        ShuffleProjects(init, a', b, ia, ib);
        OwnLine(init, a', ia, last);
        ForeignLine(init, b, ib, ia, last);
      } else {
        var b' := b[..|b| - 1];
        assert b == b' + [last];
        ShuffleProjects(init, a, b', ia, ib);
        OwnLine(init, b', ib, last);
        ForeignLine(init, a, ia, ib, last);
      }
    }
  }

  // The order of births in any log has no repetition as long as each writer's own has none.
  lemma ShuffleNoDup(merged: seq<Line>, a: seq<Line>, b: seq<Line>, ia: set<string>, ib: set<string>)
    requires Projects(merged, a, ia) && Projects(merged, b, ib) && Confined(merged, ia + ib)
    requires NoDup(Order(a)) && NoDup(Order(b))
    ensures NoDup(Order(merged))
  {
    ConfinedReplay(merged, ia + ib);
    var order := Order(merged);
    forall i, j | 0 <= i < j < |order| ensures order[i] != order[j] {
      if order[i] == order[j] {
        assert order[i] in order;
        var ids := if order[i] in ia then ia else ib;
        RepeatSurvives(Among(ids), order, i, j);
      }
    }
  }

  lemma {:induction false} RepeatSurvives<T(!new)>(p: T -> bool, s: seq<T>, i: nat, j: nat)
    requires i < j < |s| && s[i] == s[j] && p(s[i])
    ensures !NoDup(Filter(p, s))
  {
    FilterMultiset(p, s, s[i]);
    OccursTwice(s, i, j);
    if NoDup(Filter(p, s)) {
      NoDupCount(Filter(p, s), s[i]);
    }
  }

  lemma OccursTwice<T>(s: seq<T>, i: nat, j: nat)
    requires i < j < |s| && s[i] == s[j]
    ensures multiset(s)[s[i]] >= 2
  {
    SplitAt(s, i);
    var rest := s[..i] + s[i + 1..];
    assert rest[j - 1] == s[j];
  }

  lemma {:induction false} IdsAmong(rows: seq<Record>, ids: set<string>)
    ensures Ids(Filter(RowAmong(ids), rows)) == Filter(Among(ids), Ids(rows))
  {
    if rows != [] {
      var init := rows[..|rows| - 1];
      IdsAmong(init, ids);
      assert Ids(rows)[..|rows| - 1] == Ids(init);
    }
  }

  // Restricted to one writer's ids, the reopened rows are that writer's rows in its own order.
  lemma WriterRows(merged: seq<Line>, own: seq<Line>, rows: seq<Record>, ids: set<string>)
    requires Projects(merged, own, ids) && Confined(own, ids) && NoDup(Order(merged)) && Mirrors(own, rows)
    ensures Filter(RowAmong(ids), IndexAll(Order(merged), Latest(merged)).rows) == rows
  {
    var all, order := Latest(merged), Order(merged);
    LatestSound(merged);
    IndexAllInv(order, all);
    var loaded := IndexAll(order, all).rows;
    var both := (id: string) => id in ids && id in all;
    FilterFilter(Among(ids), Alive(all), both, order);
    FilterFilter(Alive(all), Among(ids), both, order);
    ConfinedReplay(own, ids);
    FilterCongruent(Alive(all), Alive(Latest(own)), Order(own));
    IdsAmong(loaded, ids);
    var mine := Filter(RowAmong(ids), loaded);
    assert Ids(mine) == Ids(rows);
    RowsFromIds(mine, rows, all, Latest(own));
  }

  // ----- Two whole runs -----

  lemma {:induction false} RunConfined(cfg: Config, ops: seq<Op>)
    requires Lawful(cfg) && Legal(ops)
    ensures Confined(FilesOf(cfg, ops).memories, Drawn(ops))
  {
    if ops != [] {
      var init, op := ops[..|ops| - 1], ops[|ops| - 1];
      RunConfined(cfg, init);
      RunKeepsInv(cfg, init);
      DrawnStep(ops);
      var s := Run(cfg, EMPTY, init);
      var acts := Do(cfg, s, op).actions;
      AppendAllSplit(NO_FILES, Actions(cfg, EMPTY, init), acts);
      StaysClosed(NO_FILES, Actions(cfg, EMPTY, init));
      StepConfined(cfg, FilesOf(cfg, init), s, op, Drawn(init), Drawn(ops));
    }
  }

  lemma ActionsConfined(f: Files, acts: seq<Action>, before: set<string>, after: set<string>)
    requires Closed(f) && Confined(f.memories, before) && before <= after && |acts| <= 2
    requires |acts| == 1 ==> acts[0].Emit?
    requires |acts| == 2 ==> !acts[0].Emit? && acts[1].Emit? && IdOfAction(acts[0]) in after
    ensures Confined(AppendAll(f, acts).memories, after)
  {
    if |acts| == 1 {
      assert acts == [acts[0]];
      AppendOne(f, acts[0]);
    } else if |acts| == 2 {
      assert acts == [acts[0], acts[1]];
      AppendTwo(f, acts[0], acts[1]);
      LineSpeaksOf(acts[0]);
      var line := Append(NO_FILES, acts[0]).memories[0];
      assert Append(f, acts[0]).memories == f.memories + [line];
      ConfinedAppend(f.memories, line, before, after);
    }
  }

  lemma StepConfined(cfg: Config, f: Files, s: State, op: Op, before: set<string>, after: set<string>)
    requires Closed(f) && Confined(f.memories, before) && before <= after
    requires forall id :: id in Ids(s.rows) ==> id in before
    requires op.Add? ==> op.newId in after
    ensures Confined(AppendAll(f, Do(cfg, s, op).actions).memories, after)
  {
    ActionShape(cfg, s, op);
    if |Do(cfg, s, op).actions| == 2 {
      ActionId(cfg, s, op);
    }
    ActionsConfined(f, Do(cfg, s, op).actions, before, after);
  }

  lemma ConfinedAppend(lines: seq<Line>, line: Line, before: set<string>, after: set<string>)
    requires Confined(lines, before) && before <= after
    requires line.Tombstone? ==> line.id in after
    requires Read(line).Some? ==> Read(line).value.id in after
    ensures Confined(lines + [line], after)
  {
  }

  function IdOfAction(a: Action): string {
    match a
    case Persist(r) => r.id
    case Update(r) => r.id
    case Erase(id) => id
    case Emit(_) => ""
  }

  lemma ActionId(cfg: Config, s: State, op: Op)
    requires |Do(cfg, s, op).actions| == 2
    ensures var id := IdOfAction(Do(cfg, s, op).actions[0]);
            id in Ids(s.rows) || (op.Add? && id == op.newId)
  {
  }

  lemma LineSpeaksOf(a: Action)
    requires !a.Emit?
    ensures var lines := Append(NO_FILES, a).memories;
            && |lines| == 1
            && (lines[0].Tombstone? ==> lines[0].id == IdOfAction(a))
            && (Read(lines[0]).Some? ==> Read(lines[0]).value.id == IdOfAction(a))
  {
  }

  // For every line-atomic interleaving of two runs with disjoint fresh ids, reopening yields the
  // disjoint union of the two live stores, and each writer's memories keep their relative order.
  lemma TwoWritersMerge(cfg: Config, ops1: seq<Op>, ops2: seq<Op>, f: Files)
    requires Lawful(cfg) && Legal(ops1) && Legal(ops2) && Drawn(ops1) !! Drawn(ops2)
    requires Shuffle(f.memories, FilesOf(cfg, ops1).memories, FilesOf(cfg, ops2).memories)
    ensures var rows := Load(f).rows;
            && Filter(RowAmong(Drawn(ops1)), rows) == Run(cfg, EMPTY, ops1).rows
            && Filter(RowAmong(Drawn(ops2)), rows) == Run(cfg, EMPTY, ops2).rows
            && (forall r :: r in rows ==> r.id in Drawn(ops1) || r.id in Drawn(ops2))
            && Inv(Load(f))
  {
    var merged := f.memories;
    var l1, l2 := FilesOf(cfg, ops1).memories, FilesOf(cfg, ops2).memories;
    RunSynced(cfg, ops1);
    RunSynced(cfg, ops2);
    RunConfined(cfg, ops1);
    RunConfined(cfg, ops2);
    ShuffleProjects(merged, l1, l2, Drawn(ops1), Drawn(ops2));
    ShuffleNoDup(merged, l1, l2, Drawn(ops1), Drawn(ops2));
    WriterRows(merged, l1, Run(cfg, EMPTY, ops1).rows, Drawn(ops1));
    WriterRows(merged, l2, Run(cfg, EMPTY, ops2).rows, Drawn(ops2));
    ConfinedReplay(merged, Drawn(ops1) + Drawn(ops2));
    LatestSound(merged);
    IndexAllInv(Order(merged), Latest(merged));
    forall r | r in IndexAll(Order(merged), Latest(merged)).rows ensures r.id in Drawn(ops1) + Drawn(ops2) {
      IdMembers(IndexAll(Order(merged), Latest(merged)).rows, r);
    }
  }

  // The shared event log replays to an interleaving of the two audit logs: it loses nothing, and each
  // writer's events keep their order.
  lemma {:induction false} EventsMerge(merged: seq<EventLine>, a: seq<EventLine>, b: seq<EventLine>)
    requires Shuffle(merged, a, b)
    ensures Shuffle(ReadEvents(merged), ReadEvents(a), ReadEvents(b))
    decreases |merged|
  {
    if merged != [] {
      var init, last := merged[..|merged| - 1], merged[|merged| - 1];
      if a != [] && a[|a| - 1] == last && Shuffle(init, a[..|a| - 1], b) {
        EventsMerge(init, a[..|a| - 1], b);
        ShuffleLeft(ReadEvents(init), ReadEvents(a[..|a| - 1]), ReadEvents(b), EventsIn(last));
      } else {
        EventsMerge(init, a, b[..|b| - 1]);
        ShuffleRight(ReadEvents(init), ReadEvents(a), ReadEvents(b[..|b| - 1]), EventsIn(last));
      }
    }
  }

  lemma ShuffleLeft<T>(merged: seq<T>, a: seq<T>, b: seq<T>, xs: seq<T>)
    requires Shuffle(merged, a, b) && |xs| <= 1
    ensures Shuffle(merged + xs, a + xs, b)
  {
    if xs == [] {
      assert merged + xs == merged && a + xs == a;
    } else {
      assert (merged + xs)[..|merged|] == merged && (a + xs)[..|a|] == a;
    }
  }

  lemma ShuffleRight<T>(merged: seq<T>, a: seq<T>, b: seq<T>, xs: seq<T>)
    requires Shuffle(merged, a, b) && |xs| <= 1
    ensures Shuffle(merged + xs, a, b + xs)
  {
    if xs == [] {
      assert merged + xs == merged && b + xs == b;
    } else {
      assert (merged + xs)[..|merged|] == merged && (b + xs)[..|b|] == b;
    }
  }
}
