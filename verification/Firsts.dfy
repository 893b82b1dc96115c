/** What a list that keeps the first of each key holds, position by position in the rows it is filled from. */
module Firsts {
  import opened Seqs
  import opened Accumulate

  // Positions row by row, and within a row from left to right.
  ghost predicate Earlier(p: (nat, nat), q: (nat, nat)) {
    p.0 < q.0 || (p.0 == q.0 && p.1 < q.1)
  }

  ghost predicate InOrder(at: seq<(nat, nat)>) {
    forall x, y :: 0 <= x < y < |at| ==> Earlier(at[x], at[y])
  }

  // ----- Rows of cells, each empty or with one element -----

  ghost predicate AreCells<T>(rows: seq<seq<seq<T>>>) {
    forall i, k :: 0 <= i < |rows| && 0 <= k < |rows[i]| ==> |rows[i][k]| <= 1
  }

  ghost predicate Holds<T>(rows: seq<seq<seq<T>>>, q: (nat, nat)) {
    q.0 < |rows| && q.1 < |rows[q.0]| && rows[q.0][q.1] != []
  }

  function Cell<T>(rows: seq<seq<seq<T>>>, q: (nat, nat)): (c: seq<T>) {
    if q.0 < |rows| && q.1 < |rows[q.0]| then rows[q.0][q.1] else []
  }

  function RowOf<T>(row: seq<seq<T>>): seq<T> {
    FlatMap(Same, row)
  }

  function Flat<T>(rows: seq<seq<seq<T>>>): seq<T> {
    FlatMap(RowOf, rows)
  }

  // No earlier cell holds an element with the same key.
  ghost predicate IsFirst<T, K>(key: T -> K, rows: seq<seq<seq<T>>>, q: (nat, nat))
    requires Holds(rows, q)
  {
    forall r :: Holds(rows, r) && Earlier(r, q) ==> key(Cell(rows, r)[0]) != key(Cell(rows, q)[0])
  }

  // Of the cells before a bound, the first of each key are kept, in order.
  ghost predicate KeptBefore<T, K>(key: T -> K, rows: seq<seq<seq<T>>>, bound: (nat, nat), at: seq<(nat, nat)>, kept: seq<T>) {
    && |at| == |kept| && InOrder(at)
    && (forall x :: 0 <= x < |at| ==> Earlier(at[x], bound) && Cell(rows, at[x]) == [kept[x]])
    && (forall q :: Holds(rows, q) && Earlier(q, bound) ==> (q in at <==> IsFirst(key, rows, q)))
    && forall q :: Holds(rows, q) && Earlier(q, bound) ==> key(Cell(rows, q)[0]) in Map(key, kept)
  }

  // Position q holds x.
  ghost predicate At<T>(rows: seq<seq<seq<T>>>, q: (nat, nat), x: T) {
    Cell(rows, q) == [x]
  }

  // The first of each key are kept, in order.
  ghost predicate KeptFirsts<T(!new), K>(key: T -> K, rows: seq<seq<seq<T>>>, at: seq<(nat, nat)>, kept: seq<T>) {
    && |at| == |kept| && InOrder(at)
    && (forall x :: 0 <= x < |at| ==> At(rows, at[x], kept[x]))
    && forall q, x :: At(rows, q, x) ==> (q in at <==> forall r, y :: At(rows, r, y) && Earlier(r, q) ==> key(y) != key(x))
  }

  lemma FirstIs<T, K>(key: T -> K, rows: seq<seq<seq<T>>>, q: (nat, nat), at: seq<(nat, nat)>, kept: seq<T>)
    requires Holds(rows, q) && KeptBefore(key, rows, q, at, kept)
    ensures IsFirst(key, rows, q) <==> key(Cell(rows, q)[0]) !in Map(key, kept)
  {
    var k := key(Cell(rows, q)[0]);
    if k in Map(key, kept) {
      var x :| 0 <= x < |kept| && Map(key, kept)[x] == k;
      assert Holds(rows, at[x]) && Earlier(at[x], q) && key(Cell(rows, at[x])[0]) == k;
    }
  }

  lemma NextIsBefore(i: nat, k: nat, q: (nat, nat))
    ensures Earlier(q, (i, k + 1)) <==> Earlier(q, (i, k)) || q == (i, k)
  {
  }

  lemma EmptyCell<T, K>(key: T -> K, rows: seq<seq<seq<T>>>, i: nat, k: nat, at: seq<(nat, nat)>, kept: seq<T>)
    requires KeptBefore(key, rows, (i, k), at, kept) && !Holds(rows, (i, k))
    ensures KeptBefore(key, rows, (i, k + 1), at, kept)
  {
    forall q ensures Earlier(q, (i, k + 1)) <==> Earlier(q, (i, k)) || q == (i, k) {
      NextIsBefore(i, k, q);
    }
  }

  lemma RepeatedCell<T, K>(key: T -> K, rows: seq<seq<seq<T>>>, i: nat, k: nat, at: seq<(nat, nat)>, kept: seq<T>)
    requires KeptBefore(key, rows, (i, k), at, kept) && Holds(rows, (i, k))
    requires key(Cell(rows, (i, k))[0]) in Map(key, kept)
    ensures KeptBefore(key, rows, (i, k + 1), at, kept)
  {
    FirstIs(key, rows, (i, k), at, kept);
    forall q ensures Earlier(q, (i, k + 1)) <==> Earlier(q, (i, k)) || q == (i, k) {
      NextIsBefore(i, k, q);
    }
  }

  lemma InOrderNext(at: seq<(nat, nat)>, p: (nat, nat))
    requires InOrder(at) && forall x :: 0 <= x < |at| ==> Earlier(at[x], p)
    ensures InOrder(at + [p]) && p !in at
    ensures forall q :: q in at + [p] <==> q in at || q == p
  {
  }

  lemma KeysNext<T, K>(key: T -> K, kept: seq<T>, x: T)
    ensures forall k :: k in Map(key, kept + [x]) <==> k in Map(key, kept) || k == key(x)
  {
    AddNewKeys(key, kept, x);
  }

  lemma NewCell<T, K>(key: T -> K, rows: seq<seq<seq<T>>>, i: nat, k: nat, at: seq<(nat, nat)>, kept: seq<T>)
    requires KeptBefore(key, rows, (i, k), at, kept) && Holds(rows, (i, k)) && |Cell(rows, (i, k))| == 1
    requires key(Cell(rows, (i, k))[0]) !in Map(key, kept)
    ensures KeptBefore(key, rows, (i, k + 1), at + [(i, k)], kept + Cell(rows, (i, k)))
  {
    var p, x := (i, k), Cell(rows, (i, k))[0];
    FirstIs(key, rows, p, at, kept);
    InOrderNext(at, p);
    KeysNext(key, kept, x);
    assert Cell(rows, p) == [x];
    forall q ensures Earlier(q, (i, k + 1)) <==> Earlier(q, p) || q == p {
      NextIsBefore(i, k, q);
    }
    forall y | 0 <= y < |at + [p]| ensures Cell(rows, (at + [p])[y]) == [(kept + [x])[y]] {
      assert y < |at| ==> (at + [p])[y] == at[y] && (kept + [x])[y] == kept[y];
    }
    assert kept + Cell(rows, p) == kept + [x];
  }

  lemma AddCell<T, K>(key: T -> K, kept: seq<T>, row: seq<seq<T>>, k: nat)
    requires k < |row| && |row[k]| <= 1
    ensures AddAll(key, kept, RowOf(row[..k + 1])) ==
            if row[k] == [] then AddAll(key, kept, RowOf(row[..k])) else AddNew(key, AddAll(key, kept, RowOf(row[..k])), row[k][0])
  {
    FlatMapNext(Same, row, k);
    AddAllAppend(key, kept, RowOf(row[..k]), row[k]);
    if row[k] != [] {
      assert row[k] == [row[k][0]];
      AddOne(key, AddAll(key, kept, RowOf(row[..k])), row[k][0]);
    }
  }

  lemma OneMoreCell<T, K>(key: T -> K, rows: seq<seq<seq<T>>>, i: nat, k: nat, at: seq<(nat, nat)>, kept: seq<T>)
    returns (next: seq<(nat, nat)>)
    requires AreCells(rows) && i < |rows| && k < |rows[i]| && KeptBefore(key, rows, (i, k), at, kept)
    ensures KeptBefore(key, rows, (i, k + 1), next, if rows[i][k] == [] then kept else AddNew(key, kept, rows[i][k][0]))
  {
    next := at;
    assert Cell(rows, (i, k)) == rows[i][k];
    if rows[i][k] == [] {
      EmptyCell(key, rows, i, k, at, kept);
    } else if key(rows[i][k][0]) in Map(key, kept) {
      RepeatedCell(key, rows, i, k, at, kept);
    } else {
      NewCell(key, rows, i, k, at, kept);
      assert rows[i][k] == [rows[i][k][0]];
      next := at + [(i, k)];
    }
  }

  lemma CellOfRow<T, K>(key: T -> K, rows: seq<seq<seq<T>>>, i: nat, k: nat, at: seq<(nat, nat)>, kept: seq<T>)
    returns (next: seq<(nat, nat)>)
    requires AreCells(rows) && i < |rows| && k < |rows[i]|
    requires KeptBefore(key, rows, (i, k), at, AddAll(key, kept, RowOf(rows[i][..k])))
    ensures KeptBefore(key, rows, (i, k + 1), next, AddAll(key, kept, RowOf(rows[i][..k + 1])))
  {
    AddCell(key, kept, rows[i], k);
    next := OneMoreCell(key, rows, i, k, at, AddAll(key, kept, RowOf(rows[i][..k])));
  }

  lemma {:induction false} OneMoreRow<T, K>(key: T -> K, rows: seq<seq<seq<T>>>, i: nat, k: nat, at: seq<(nat, nat)>, kept: seq<T>)
    returns (next: seq<(nat, nat)>)
    requires AreCells(rows) && i < |rows| && k <= |rows[i]| && KeptBefore(key, rows, (i, 0), at, kept)
    ensures KeptBefore(key, rows, (i, k), next, AddAll(key, kept, RowOf(rows[i][..k])))
  {
    if k == 0 {
      assert RowOf(rows[i][..0]) == [];
      next := at;
    } else {
      var before := OneMoreRow(key, rows, i, k - 1, at, kept);
      next := CellOfRow(key, rows, i, k - 1, before, kept);
    }
  }

  lemma RowEnds<T, K>(key: T -> K, rows: seq<seq<seq<T>>>, i: nat, at: seq<(nat, nat)>, kept: seq<T>)
    requires i < |rows| && KeptBefore(key, rows, (i, |rows[i]|), at, kept)
    ensures KeptBefore(key, rows, (i + 1, 0), at, kept)
  {
    assert forall q :: Holds(rows, q) ==> (Earlier(q, (i + 1, 0)) <==> Earlier(q, (i, |rows[i]|)));
  }

  lemma {:induction false} FirstsBefore<T, K>(key: T -> K, rows: seq<seq<seq<T>>>, n: nat) returns (at: seq<(nat, nat)>)
    requires AreCells(rows) && n <= |rows|
    ensures KeptBefore(key, rows, (n, 0), at, AddAll(key, [], Flat(rows[..n])))
  {
    at := [];
    if n > 0 {
      var i := n - 1;
      var before := FirstsBefore(key, rows, i);
      var kept := AddAll(key, [], Flat(rows[..i]));
      at := OneMoreRow(key, rows, i, |rows[i]|, before, kept);
      FullPrefix(rows[i], |rows[i]|);
      FlatMapNext(RowOf, rows, i);
      AddAllAppend(key, [], Flat(rows[..i]), RowOf(rows[i]));
      RowEnds(key, rows, i, at, AddAll(key, kept, RowOf(rows[i])));
    }
  }

  lemma FirstIsAt<T(!new), K>(key: T -> K, rows: seq<seq<seq<T>>>, q: (nat, nat), x: T)
    requires AreCells(rows) && At(rows, q, x)
    ensures Holds(rows, q)
    ensures IsFirst(key, rows, q) <==> forall r, y :: At(rows, r, y) && Earlier(r, q) ==> key(y) != key(x)
  {
    assert Cell(rows, q)[0] == x;
    if forall r, y :: At(rows, r, y) && Earlier(r, q) ==> key(y) != key(x) {
      forall r | Holds(rows, r) && Earlier(r, q) ensures key(Cell(rows, r)[0]) != key(Cell(rows, q)[0]) {
        assert At(rows, r, Cell(rows, r)[0]);
      }
    }
  }

  // Adding everything that the cells hold keeps the first of each key.
  lemma FirstsAreKept<T(!new), K>(key: T -> K, rows: seq<seq<seq<T>>>) returns (at: seq<(nat, nat)>)
    requires AreCells(rows)
    ensures KeptFirsts(key, rows, at, AddAll(key, [], Flat(rows)))
  {
    at := FirstsBefore(key, rows, |rows|);
    FullPrefix(rows, |rows|);
    assert forall q :: Holds(rows, q) ==> Earlier(q, (|rows|, 0));
    forall q, x | At(rows, q, x)
      ensures q in at <==> forall r, y :: At(rows, r, y) && Earlier(r, q) ==> key(y) != key(x)
    {
      FirstIsAt(key, rows, q, x);
    }
  }

  // ----- Rows from the elements of a list -----

  function Single<T>(x: T): seq<T> {
    [x]
  }

  // One row for each element that satisfies the condition; the others give an empty row.
  function RowIf<A, T>(f: A -> seq<T>, p: A -> bool): A -> seq<seq<T>> {
    (a: A) => if p(a) then Map(Single, f(a)) else []
  }

  function RowsFor<A, T>(f: A -> seq<T>, p: A -> bool, s: seq<A>): (rows: seq<seq<seq<T>>>)
    ensures |rows| == |s|
    ensures forall i :: 0 <= i < |s| ==> rows[i] == if p(s[i]) then Map(Single, f(s[i])) else []
  {
    Map(RowIf(f, p), s)
  }

  lemma {:induction false} SinglesFlat<T>(s: seq<T>)
    ensures RowOf(Map(Single, s)) == s
  {
    if s != [] {
      MapLast(Single, s);
      var n := |s| - 1;
      assert Map(Single, s)[..n] == Map(Single, s[..n]);
      SinglesFlat(s[..n]);
    }
  }

  lemma {:induction false} RowsFlat<A(!new), T>(f: A -> seq<T>, p: A -> bool, s: seq<A>)
    ensures Flat(RowsFor(f, p, s)) == FlatMap(f, Filter(p, s))
  {
    if s != [] {
      var n := |s| - 1;
      RowsFlat(f, p, s[..n]);
      assert RowsFor(f, p, s)[..n] == RowsFor(f, p, s[..n]);
      SinglesFlat(f(s[n]));
      FilterLast(p, s);
      LastOfFlat(f, Filter(p, s[..n]), s[n]);
    }
  }

  lemma FilterLast<A(!new)>(p: A -> bool, s: seq<A>)
    requires s != []
    ensures Filter(p, s) == Filter(p, s[..|s| - 1]) + if p(s[|s| - 1]) then [s[|s| - 1]] else []
  {
  }

  lemma LastOfFlat<A, T>(f: A -> seq<T>, s: seq<A>, a: A)
    ensures FlatMap(f, s + [a]) == FlatMap(f, s) + f(a)
  {
    assert (s + [a])[..|s|] == s;
  }

  // ----- Pairs -----

  // What f finds of the pairs at these positions.
  ghost predicate FoundAt<A, B>(f: (A, A) -> seq<B>, s: seq<A>, at: seq<(nat, nat)>, found: seq<B>) {
    |at| == |found| &&
    forall x :: 0 <= x < |at| ==> at[x].0 < at[x].1 < |s| && f(s[at[x].0], s[at[x].1]) == [found[x]]
  }

  ghost predicate AllPositions(n: nat, at: seq<(nat, nat)>) {
    forall i: nat, k: nat :: i < k < n ==> (i, k) in at
  }

  // The pairs of a list come in order: for each element those with the later ones, from left to right.
  ghost predicate PairsAt<A, B>(f: (A, A) -> seq<B>, s: seq<A>, at: seq<(nat, nat)>, found: seq<B>) {
    InOrder(at) && FoundAt(f, s, at, found) && AllPositions(|s|, at)
  }

  lemma {:induction false} SinglesMap<A, B>(f: A -> seq<B>, s: seq<A>)
    requires forall x :: x in s ==> |f(x)| == 1
    ensures |FlatMap(f, s)| == |s|
    ensures forall i :: 0 <= i < |s| ==> f(s[i]) == [FlatMap(f, s)[i]]
  {
    if s != [] {
      var n := |s| - 1;
      SinglesMap(f, s[..n]);
      assert f(s[n]) == [f(s[n])[0]];
      forall i | 0 <= i < |s| ensures f(s[i]) == [FlatMap(f, s)[i]] {
        assert i < n ==> s[..n][i] == s[i];
      }
    }
  }

  function FirstPairs(n: nat): (at: seq<(nat, nat)>)
    ensures |at| == n && forall k :: 0 <= k < n ==> at[k] == (0, k + 1)
  {
    seq(n, k requires 0 <= k < n => (0, k + 1))
  }

  function Moved(at: seq<(nat, nat)>): (moved: seq<(nat, nat)>)
    ensures |moved| == |at| && forall x :: 0 <= x < |at| ==> moved[x] == (at[x].0 + 1, at[x].1 + 1)
  {
    seq(|at|, x requires 0 <= x < |at| => (at[x].0 + 1, at[x].1 + 1))
  }

  lemma FirstThenMoved(n: nat, rest: seq<(nat, nat)>)
    requires InOrder(rest)
    ensures InOrder(FirstPairs(n) + Moved(rest))
  {
    assert forall x :: 0 <= x < |rest| ==> Moved(rest)[x].0 > 0;
  }

  lemma AllPairsThere(n: nat, rest: seq<(nat, nat)>, i: nat, k: nat)
    requires i < k <= n && (i > 0 ==> (i - 1, k - 1) in rest)
    ensures (i, k) in FirstPairs(n) + Moved(rest)
  {
    if i == 0 {
      assert FirstPairs(n)[k - 1] == (i, k);
    } else {
      var x :| 0 <= x < |rest| && rest[x] == (i - 1, k - 1);
      assert Moved(rest)[x] == (i, k);
    }
  }

  lemma PairMoved<A, B>(f: (A, A) -> seq<B>, s: seq<A>, q: (nat, nat), y: B)
    requires s != [] && q.0 < q.1 < |s[1..]| && f(s[1..][q.0], s[1..][q.1]) == [y]
    ensures q.1 + 1 < |s| && f(s[q.0 + 1], s[q.1 + 1]) == [y]
  {
  }

  lemma FoundWithFirst<A, B>(f: (A, A) -> seq<B>, s: seq<A>, rest: seq<(nat, nat)>, found: seq<B>, firsts: seq<B>)
    requires s != [] && FoundAt(f, s[1..], rest, found)
    requires |firsts| == |s| - 1 && forall k :: 0 <= k < |firsts| ==> f(s[0], s[k + 1]) == [firsts[k]]
    ensures FoundAt(f, s, FirstPairs(|s| - 1) + Moved(rest), firsts + found)
  {
    var n := |s| - 1;
    var at := FirstPairs(n) + Moved(rest);
    forall x | 0 <= x < |at| ensures at[x].0 < at[x].1 < |s| && f(s[at[x].0], s[at[x].1]) == [(firsts + found)[x]] {
      if x >= n {
        PairMoved(f, s, rest[x - n], found[x - n]);
        assert at[x] == Moved(rest)[x - n];
      } else {
        assert at[x] == (0, x + 1);
      }
    }
  }

  lemma AllWithFirst(n: nat, rest: seq<(nat, nat)>)
    requires AllPositions(n, rest)
    ensures AllPositions(n + 1, FirstPairs(n) + Moved(rest))
  {
    forall i: nat, k: nat | i < k < n + 1 ensures (i, k) in FirstPairs(n) + Moved(rest) {
      AllPairsThere(n, rest, i, k);
    }
  }

  lemma {:induction false} PairsInOrder<A, B>(f: (A, A) -> seq<B>, s: seq<A>) returns (at: seq<(nat, nat)>)
    requires forall x, y :: x in s && y in s ==> |f(x, y)| == 1
    ensures PairsAt(f, s, at, Pairs(f, s))
  {
    at := [];
    if s != [] {
      var rest := PairsInOrder(f, s[1..]);
      SinglesMap(With(f, s[0]), s[1..]);
      var firsts := FlatMap(With(f, s[0]), s[1..]);
      forall k | 0 <= k < |firsts| ensures f(s[0], s[k + 1]) == [firsts[k]] {
        assert s[1..][k] == s[k + 1];
      }
      FirstThenMoved(|s| - 1, rest);
      FoundWithFirst(f, s, rest, Pairs(f, s[1..]), firsts);
      AllWithFirst(|s| - 1, rest);
      at := FirstPairs(|s| - 1) + Moved(rest);
    }
  }
}
