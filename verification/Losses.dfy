/** What a log replays to once some lines in its middle are lost, and exactly when that changes nothing. */
module Losses {
  import opened Seqs
  import opened Models
  import opened StoreModel
  import opened Journal

  function Replayed(lines: seq<Line>): State {
    IndexAll(Order(lines), Latest(lines))
  }

  // The id that a line writes or erases; a line that is skipped concerns none.
  function Concerned(line: Line): Option<string> {
    if line.Tombstone? then Some(line.id)
    else if Read(line).Some? then Some(Read(line).value.id)
    else None
  }

  predicate Concerns(lines: seq<Line>, id: string) {
    exists i :: 0 <= i < |lines| && Concerned(lines[i]) == Some(id)
  }

  // The ids outside a given set that lines write, in the order of their first record.
  function FirstWritten(known: set<string>, lines: seq<Line>): seq<string> {
    if lines == [] then []
    else
      var before, r := FirstWritten(known, lines[..|lines| - 1]), Read(lines[|lines| - 1]);
      if r.Some? && r.value.id !in known && r.value.id !in before then before + [r.value.id] else before
  }

  // Both maps say the same of an id.
  ghost predicate SameAt(a: map<string, Record>, b: map<string, Record>, id: string) {
    (id in a <==> id in b) && (id in a ==> a[id] == b[id])
  }

  // What lost lines say of an id is written or erased again by later ones, or was said before.
  ghost predicate Heals(kept: seq<Line>, lost: seq<Line>, later: seq<Line>, id: string) {
    Concerns(lost, id) && !Concerns(later, id) ==> SameAt(Latest(kept + lost), Latest(kept), id)
  }

  // The first lines, the lost ones, and the later ones, of which the store reads back the first and the last.
  // What the lost lines say is healed for every id; and the ids that they bring to life, as far as they live in
  // the end, are the first such ids that the later lines write.
  ghost predicate Healed(kept: seq<Line>, lost: seq<Line>, later: seq<Line>) {
    && (forall id :: Heals(kept, lost, later, id))
    && Filter(Alive(Latest(kept + lost + later)), FirstWritten(KnownTo(kept), lost)) <=
       Filter(Alive(Latest(kept + lost + later)), FirstWritten(KnownTo(kept), later))
  }

  function KnownTo(lines: seq<Line>): set<string> {
    set id | id in Order(lines)
  }

  // ----- Values -----

  lemma {:induction false} UnconcernedStays(a: seq<Line>, b: seq<Line>, id: string)
    requires !Concerns(b, id)
    ensures SameAt(Latest(a + b), Latest(a), id)
  {
    if b == [] {
      assert a + b == a;
    } else {
      var init, line := b[..|b| - 1], b[|b| - 1];
      assert a + b == a + init + [line];
      Extended(a + init, line);
      assert Concerned(b[|b| - 1]) != Some(id);
      assert forall i :: 0 <= i < |init| ==> init[i] == b[i];
      UnconcernedStays(a, init, id);
    }
  }

  lemma {:induction false} ConcernedDecides(a: seq<Line>, b: seq<Line>, later: seq<Line>, id: string)
    requires Concerns(later, id)
    ensures SameAt(Latest(a + later), Latest(b + later), id)
  {
    var init, line := later[..|later| - 1], later[|later| - 1];
    assert a + later == a + init + [line] && b + later == b + init + [line];
    Extended(a + init, line);
    Extended(b + init, line);
    if Concerned(line) != Some(id) {
      var i :| 0 <= i < |later| && Concerned(later[i]) == Some(id);
      assert init[i] == later[i];
      ConcernedDecides(a, b, init, id);
    }
  }

  // Without the lost lines an id has its true value in the end exactly if later lines concern it or the
  // lost ones say nothing new of it.
  lemma ValueSurvives(kept: seq<Line>, lost: seq<Line>, later: seq<Line>, id: string)
    ensures SameAt(Latest(kept + lost + later), Latest(kept + later), id) <==>
              Concerns(later, id) || SameAt(Latest(kept + lost), Latest(kept), id)
  {
    if Concerns(later, id) {
      ConcernedDecides(kept + lost, kept, later, id);
    } else {
      UnconcernedStays(kept + lost, later, id);
      UnconcernedStays(kept, later, id);
    }
  }

  // ----- Order -----

  function SetOf(s: seq<string>): set<string> {
    set x | x in s
  }

  function Outside(known: set<string>): string -> bool {
    (id: string) => id !in known
  }

  lemma {:induction false} FirstWrittenDistinct(known: set<string>, lines: seq<Line>)
    ensures NoDup(FirstWritten(known, lines))
    ensures forall id :: id in FirstWritten(known, lines) ==> id !in known
  {
    if lines != [] {
      FirstWrittenDistinct(known, lines[..|lines| - 1]);
    }
  }

  lemma {:induction false} FirstWrittenOutside(known: set<string>, more: set<string>, lines: seq<Line>)
    ensures FirstWritten(known + more, lines) == Filter(Outside(more), FirstWritten(known, lines))
  {
    if lines != [] {
      var init, r := lines[..|lines| - 1], Read(lines[|lines| - 1]);
      FirstWrittenOutside(known, more, init);
      if r.Some? {
        FilterAppend(Outside(more), FirstWritten(known, init), [r.value.id]);
      }
    }
  }

  lemma {:induction false} FirstWrittenAppend(known: set<string>, a: seq<Line>, b: seq<Line>)
    ensures FirstWritten(known, a + b) ==
            FirstWritten(known, a) + FirstWritten(known + SetOf(FirstWritten(known, a)), b)
  {
    if b == [] {
      assert a + b == a;
    } else {
      var init := b[..|b| - 1];
      assert (a + b)[..|a + b| - 1] == a + init;
      FirstWrittenAppend(known, a, init);
    }
  }

  // If no id is born twice, births come in the order of first records.
  lemma {:induction false} OrderIsFirstWritten(lines: seq<Line>)
    requires NoDup(Order(lines))
    ensures Order(lines) == FirstWritten({}, lines)
  {
    if lines != [] {
      var init, r := lines[..|lines| - 1], Read(lines[|lines| - 1]);
      PrefixNoDup(init, lines);
      OrderIsFirstWritten(init);
      if r.Some? && r.value.id in Latest(init) {
        LatestInOrder(init);
      } else if r.Some? {
        NoDupPrefix(Order(lines));
      }
    }
  }

  lemma PrefixNoDup(init: seq<Line>, lines: seq<Line>)
    requires lines != [] && init == lines[..|lines| - 1] && NoDup(Order(lines))
    ensures NoDup(Order(init))
  {
    MembersOfPrefix(Order(init), Order(lines));
  }

  // The ids that lines write.
  function Written(lines: seq<Line>): set<string> {
    if lines == [] then {}
    else
      var r := Read(lines[|lines| - 1]);
      Written(lines[..|lines| - 1]) + if r.Some? then {r.value.id} else {}
  }

  lemma {:induction false} InOrderIffWritten(lines: seq<Line>)
    ensures KnownTo(lines) == Written(lines)
  {
    if lines != [] {
      InOrderIffWritten(lines[..|lines| - 1]);
      LatestInOrder(lines[..|lines| - 1]);
    }
  }

  lemma {:induction false} WrittenAppend(a: seq<Line>, b: seq<Line>)
    ensures Written(a + b) == Written(a) + Written(b)
  {
    if b == [] {
      assert a + b == a;
    } else {
      assert (a + b)[..|a + b| - 1] == a + b[..|b| - 1];
      WrittenAppend(a, b[..|b| - 1]);
    }
  }

  lemma {:induction false} WrittenIsConcerned(lines: seq<Line>, id: string)
    requires id in Written(lines)
    ensures Concerns(lines, id)
  {
    var init, line := lines[..|lines| - 1], lines[|lines| - 1];
    if Concerned(line) != Some(id) {
      WrittenIsConcerned(init, id);
      var i :| 0 <= i < |init| && Concerned(init[i]) == Some(id);
      assert lines[i] == init[i];
    }
  }

  lemma {:induction false} OrderGrows(a: seq<Line>, b: seq<Line>)
    ensures Order(a) <= Order(a + b)
  {
    if b == [] {
      assert a + b == a;
    } else {
      assert (a + b)[..|a + b| - 1] == a + b[..|b| - 1];
      OrderGrows(a, b[..|b| - 1]);
    }
  }

  lemma BornOnce(lines: seq<Line>, line: Line)
    requires NoDup(Order(lines + [line])) && Read(line).Some? && Read(line).value.id !in Latest(lines)
    ensures Read(line).value.id !in Order(lines)
  {
    Extended(lines, line);
    NoDupPrefix(Order(lines + [line]));
    assert Order(lines + [line])[..|Order(lines)|] == Order(lines);
  }

  // An id that is gone stays gone if no id is born twice.
  lemma {:induction false} GoneStaysGone(a: seq<Line>, b: seq<Line>, id: string)
    requires NoDup(Order(a + b)) && id in Order(a) && id !in Latest(a)
    ensures id !in Latest(a + b)
  {
    if b == [] {
      assert a + b == a;
    } else {
      var init, line := b[..|b| - 1], b[|b| - 1];
      LastOf(a, b);
      NoDupOfStart(a + init, [line]);
      GoneStaysGone(a, init, id);
      OrderGrows(a, init);
      MembersOfPrefix(Order(a), Order(a + init));
      NotRevived(a + init, line, id);
    }
  }

  lemma LastOf(a: seq<Line>, b: seq<Line>)
    requires b != []
    ensures a + b == (a + b[..|b| - 1]) + [b[|b| - 1]]
  {
  }

  lemma NotRevived(lines: seq<Line>, line: Line, id: string)
    requires NoDup(Order(lines + [line])) && id in Order(lines) && id !in Latest(lines)
    ensures id !in Latest(lines + [line])
  {
    Extended(lines, line);
    if Read(line).Some? && Read(line).value.id == id {
      BornOnce(lines, line);
    }
  }

  lemma WrittenByStart(a: seq<Line>, b: seq<Line>, id: string)
    requires id in Order(a + b) && !Concerns(b, id)
    ensures id in Order(a)
  {
    InOrderIffWritten(a + b);
    InOrderIffWritten(a);
    WrittenAppend(a, b);
    assert id in KnownTo(a + b);
    if id in Written(b) {
      WrittenIsConcerned(b, id);
    }
    assert id in KnownTo(a);
  }

  lemma StillWritten(kept: seq<Line>, lost: seq<Line>, later: seq<Line>, id: string)
    requires id in Order(kept + later)
    ensures id in Order(kept + lost + later)
  {
    InOrderIffWritten(kept + later);
    InOrderIffWritten(kept + lost + later);
    WrittenAppend(kept, later);
    WrittenAppend(kept + lost, later);
    WrittenAppend(kept, lost);
    assert id in KnownTo(kept + later);
    assert id in KnownTo(kept + lost + later);
  }

  lemma GoneWithout(kept: seq<Line>, lost: seq<Line>, later: seq<Line>, id: string)
    requires NoDup(Order(kept + lost + later)) && id in Order(kept + later) && id !in Latest(kept + later)
    ensures id !in Latest(kept + lost + later)
  {
    if Concerns(later, id) {
      ConcernedDecides(kept + lost, kept, later, id);
    } else {
      UnconcernedStays(kept, later, id);
      UnconcernedStays(kept + lost, later, id);
      WrittenByStart(kept, later, id);
      NoDupOfStart(kept + lost, later);
      GoneStaysGone(kept, lost, id);
    }
  }

  lemma NoDupOfStart(a: seq<Line>, b: seq<Line>)
    requires NoDup(Order(a + b))
    ensures NoDup(Order(a))
  {
    OrderGrows(a, b);
    MembersOfPrefix(Order(a), Order(a + b));
  }

  // Losing lines lets no id be born twice.
  lemma {:induction false} StillBornOnce(kept: seq<Line>, lost: seq<Line>, later: seq<Line>)
    requires NoDup(Order(kept + lost + later))
    ensures NoDup(Order(kept + later))
  {
    if later == [] {
      assert kept + later == kept && kept + lost + later == kept + lost;
      NoDupOfStart(kept, lost);
    } else {
      var init, line := later[..|later| - 1], later[|later| - 1];
      assert kept + lost + later == (kept + lost + init) + [line] && kept + later == (kept + init) + [line];
      PrefixNoDup(kept + lost + init, kept + lost + later);
      StillBornOnce(kept, lost, init);
      Extended(kept + init, line);
      BirthIsNew(kept, lost, init, line);
    }
  }

  lemma BirthIsNew(kept: seq<Line>, lost: seq<Line>, init: seq<Line>, line: Line)
    requires NoDup(Order(kept + lost + init + [line])) && NoDup(Order(kept + lost + init)) && NoDup(Order(kept + init))
    ensures NoDup(Order(kept + init + [line]))
  {
    Extended(kept + init, line);
    if Read(line).Some? && Read(line).value.id !in Latest(kept + init) {
      var id := Read(line).value.id;
      if id in Order(kept + init) {
        GoneWithout(kept, lost, init, id);
        StillWritten(kept, lost, init, id);
        BornOnce(kept + lost + init, line);
      }
      NoDupAppend(Order(kept + init), id);
    }
  }

  // ----- The order that is read back -----

  lemma PrefixDecides(b: seq<string>, f: seq<string>, known: set<string>)
    requires NoDup(f) && (forall x :: x in b ==> x in known) && (forall x :: x in f && x in known ==> x in b)
    ensures b + Filter(Outside(known), f) == f <==> b <= f
  {
    if b <= f {
      RestOutside(b, f[|b|..], f, known);
    }
  }

  lemma RestOutside(b: seq<string>, rest: seq<string>, f: seq<string>, known: set<string>)
    requires f == b + rest && NoDup(f)
    requires (forall x :: x in b ==> x in known) && (forall x :: x in f && x in known ==> x in b)
    ensures Filter(Outside(known), f) == rest
  {
    FilterAppend(Outside(known), b, rest);
    FilterNone(Outside(known), b);
    forall x | x in rest ensures x !in known {
      var j :| 0 <= j < |rest| && rest[j] == x;
      assert f[|b| + j] == x;
      assert forall i :: 0 <= i < |b| ==> f[i] == b[i] && f[i] != x;
    }
    FilterAll(Outside(known), rest);
  }

  // The live ids that are born in the lost and in the later lines, against those that are born in the later
  // ones alone.
  lemma BirthsAgree(known: set<string>, lost: seq<Line>, later: seq<Line>, alive: string -> bool)
    ensures Filter(alive, FirstWritten(known, lost + later)) == Filter(alive, FirstWritten(known, later)) <==>
              Filter(alive, FirstWritten(known, lost)) <= Filter(alive, FirstWritten(known, later))
  {
    var first := FirstWritten(known, lost);
    var b, f := Filter(alive, first), Filter(alive, FirstWritten(known, later));
    FirstWrittenAppend(known, lost, later);
    FirstWrittenOutside(known, SetOf(first), later);
    FilterAppend(alive, first, Filter(Outside(SetOf(first)), FirstWritten(known, later)));
    Swap(alive, Outside(SetOf(first)), FirstWritten(known, later));
    FirstWrittenDistinct(known, later);
    FilterNoDup(alive, FirstWritten(known, later));
    PrefixDecides(b, f, SetOf(first));
  }

  lemma Swap(p: string -> bool, q: string -> bool, s: seq<string>)
    ensures Filter(p, Filter(q, s)) == Filter(q, Filter(p, s))
  {
    var both := (x: string) => p(x) && q(x);
    FilterFilter(p, q, both, s);
    FilterFilter(q, p, both, s);
  }

  lemma OrderSplit(kept: seq<Line>, more: seq<Line>)
    requires NoDup(Order(kept + more))
    ensures Order(kept + more) == Order(kept) + FirstWritten(KnownTo(kept), more)
  {
    NoDupOfStart(kept, more);
    OrderIsFirstWritten(kept);
    OrderIsFirstWritten(kept + more);
    FirstWrittenAppend({}, kept, more);
    assert {} + SetOf(FirstWritten({}, kept)) == KnownTo(kept);
  }

  lemma OrderSurvives(kept: seq<Line>, lost: seq<Line>, later: seq<Line>, alive: string -> bool)
    requires NoDup(Order(kept + lost + later))
    ensures Filter(alive, Order(kept + lost + later)) == Filter(alive, Order(kept + later)) <==>
              Filter(alive, FirstWritten(KnownTo(kept), lost)) <= Filter(alive, FirstWritten(KnownTo(kept), later))
  {
    StillBornOnce(kept, lost, later);
    assert kept + lost + later == kept + (lost + later);
    OrderSplit(kept, lost + later);
    OrderSplit(kept, later);
    FilterAppend(alive, Order(kept), FirstWritten(KnownTo(kept), lost + later));
    FilterAppend(alive, Order(kept), FirstWritten(KnownTo(kept), later));
    BirthsAgree(KnownTo(kept), lost, later, alive);
    SameStart(Filter(alive, Order(kept)), Filter(alive, FirstWritten(KnownTo(kept), lost + later)),
              Filter(alive, FirstWritten(KnownTo(kept), later)));
  }

  lemma SameStart(a: seq<string>, x: seq<string>, y: seq<string>)
    ensures a + x == a + y <==> x == y
  {
    if a + x == a + y {
      assert (a + x)[|a|..] == x && (a + y)[|a|..] == y;
    }
  }

  // ----- The rows that are read back -----

  lemma ReplayedIs(lines: seq<Line>)
    requires NoDup(Order(lines))
    ensures var s := Replayed(lines);
            Inv(s) && Holds(s.rows, Latest(lines)) && Ids(s.rows) == Filter(Alive(Latest(lines)), Order(lines))
  {
    LatestSound(lines);
    IndexAllInv(Order(lines), Latest(lines));
  }

  lemma AliveIsListed(lines: seq<Line>, id: string)
    requires NoDup(Order(lines)) && id in Latest(lines)
    ensures id in Ids(Replayed(lines).rows)
  {
    ReplayedIs(lines);
    LatestInOrder(lines);
  }

  lemma SameMaps(a: map<string, Record>, b: map<string, Record>)
    requires forall id :: SameAt(a, b, id)
    ensures a == b
  {
    forall id ensures (id in a <==> id in b) && (id in a ==> a[id] == b[id]) {
      assert SameAt(a, b, id);
    }
  }

  // Two logs replay to the same rows exactly if they agree on the values and on the order of the living ids.
  lemma SameRowsIff(a: seq<Line>, b: seq<Line>)
    requires NoDup(Order(a)) && NoDup(Order(b))
    ensures Replayed(a).rows == Replayed(b).rows <==>
            && Latest(a) == Latest(b)
            && Filter(Alive(Latest(a)), Order(a)) == Filter(Alive(Latest(a)), Order(b))
  {
    ReplayedIs(a);
    ReplayedIs(b);
    if Replayed(a).rows == Replayed(b).rows {
      forall id ensures SameAt(Latest(a), Latest(b), id) {
        SameValue(a, b, id);
      }
      SameMaps(Latest(a), Latest(b));
    }
    if Latest(a) == Latest(b) && Ids(Replayed(a).rows) == Ids(Replayed(b).rows) {
      RowsFromIds(Replayed(a).rows, Replayed(b).rows, Latest(a), Latest(b));
    }
  }

  lemma SameValue(a: seq<Line>, b: seq<Line>, id: string)
    requires NoDup(Order(a)) && NoDup(Order(b)) && Replayed(a).rows == Replayed(b).rows
    ensures SameAt(Latest(a), Latest(b), id)
  {
    ReplayedIs(a);
    ReplayedIs(b);
    if id in Latest(a) {
      AliveIsListed(a, id);
    } else if id in Latest(b) {
      AliveIsListed(b, id);
    }
    var rows := Replayed(a).rows;
    if id in Ids(rows) {
      var i := Position(rows, id);
      assert rows[i] in rows;
    }
  }

  // The exact condition: losing lines changes nothing of what is read back if and only if the later lines
  // heal the loss.
  lemma LossIff(kept: seq<Line>, lost: seq<Line>, later: seq<Line>)
    requires NoDup(Order(kept + lost + later))
    ensures Replayed(kept + later).rows == Replayed(kept + lost + later).rows <==> Healed(kept, lost, later)
  {
    var a, b := kept + lost + later, kept + later;
    StillBornOnce(kept, lost, later);
    SameRowsIff(a, b);
    OrderSurvives(kept, lost, later, Alive(Latest(a)));
    ValuesSurvive(kept, lost, later);
  }

  lemma OneValueSurvives(kept: seq<Line>, lost: seq<Line>, later: seq<Line>, id: string)
    ensures SameAt(Latest(kept + lost + later), Latest(kept + later), id) <==> Heals(kept, lost, later, id)
  {
    ValueSurvives(kept, lost, later, id);
    if !Concerns(lost, id) {
      UnconcernedStays(kept, lost, id);
    }
  }

  lemma ValuesSurvive(kept: seq<Line>, lost: seq<Line>, later: seq<Line>)
    ensures Latest(kept + lost + later) == Latest(kept + later) <==> forall id :: Heals(kept, lost, later, id)
  {
    var a, b := Latest(kept + lost + later), Latest(kept + later);
    if a == b {
      forall id ensures Heals(kept, lost, later, id) {
        OneValueSurvives(kept, lost, later, id);
      }
    }
    if forall id :: Heals(kept, lost, later, id) {
      forall id ensures SameAt(a, b, id) {
        OneValueSurvives(kept, lost, later, id);
      }
      SameMaps(a, b);
    }
  }
}
