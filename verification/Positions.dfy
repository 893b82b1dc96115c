/** Parts of a sequence by position: which elements a filter, a greedy removal and a slice keep, in which order. */
module Positions {
  import opened Seqs
  import opened Grouping

  // Rising positions below n.
  ghost predicate Rising(at: seq<nat>, n: nat) {
    && (forall j :: 0 <= j < |at| ==> at[j] < n)
    && forall j, k :: 0 <= j < k < |at| ==> at[j] < at[k]
  }

  // The elements at these positions, in this order.
  ghost predicate Picks<T>(s: seq<T>, at: seq<nat>, picked: seq<T>) {
    && Rising(at, |s|) && |picked| == |at|
    && forall j :: 0 <= j < |at| ==> picked[j] == s[at[j]]
  }

  ghost predicate Picked(at: seq<nat>, i: nat) {
    exists j :: 0 <= j < |at| && at[j] == i
  }

  lemma PickOneMore<T>(s: seq<T>, at: seq<nat>, picked: seq<T>)
    requires s != [] && Picks(s[..|s| - 1], at, picked)
    ensures Picks(s, at, picked) && Picks(s, at + [|s| - 1], picked + [s[|s| - 1]])
    ensures forall i: nat :: Picked(at + [|s| - 1], i) <==> Picked(at, i) || i == |s| - 1
  {
    var n := |s| - 1;
    forall i: nat ensures Picked(at + [n], i) <==> Picked(at, i) || i == n {
      assert (at + [n])[|at|] == n;
      if j :| 0 <= j < |at| && at[j] == i {
        assert (at + [n])[j] == i;
      }
    }
  }

  // These positions are those of the elements that satisfy the condition.
  ghost predicate Satisfying<T(!new)>(p: T -> bool, s: seq<T>, at: seq<nat>) {
    forall i: nat :: i < |s| ==> (Picked(at, i) <==> p(s[i]))
  }

  lemma LastSatisfies<T(!new)>(p: T -> bool, s: seq<T>, at: seq<nat>, kept: seq<T>)
    requires s != [] && Picks(s[..|s| - 1], at, kept) && Satisfying(p, s[..|s| - 1], at)
    ensures p(s[|s| - 1]) ==> Satisfying(p, s, at + [|s| - 1])
    ensures !p(s[|s| - 1]) ==> Satisfying(p, s, at)
  {
    var n := |s| - 1;
    PickOneMore(s, at, kept);
    assert !Picked(at, n);
    assert forall i :: 0 <= i < n ==> s[..n][i] == s[i];
  }

  // A filter keeps the elements that satisfy the condition, where they stand.
  lemma {:induction false} FilterPicks<T(!new)>(p: T -> bool, s: seq<T>) returns (at: seq<nat>)
    ensures Picks(s, at, Filter(p, s)) && Satisfying(p, s, at)
    ensures forall i: nat :: i < |s| ==> (Picked(at, i) <==> p(s[i]))
  {
    at := [];
    if s != [] {
      var n := |s| - 1;
      var before := FilterPicks(p, s[..n]);
      PickOneMore(s, before, Filter(p, s[..n]));
      LastSatisfies(p, s, before, Filter(p, s[..n]));
      at := if p(s[n]) then before + [n] else before;
    }
  }

  // Element i is like the element at one of these positions, an earlier one.
  ghost predicate LikeEarlier<T>(like: (T, T) -> bool, s: seq<T>, at: seq<nat>, i: nat)
    requires i < |s| && Rising(at, |s|)
  {
    exists j :: 0 <= j < |at| && at[j] < i && like(s[i], s[at[j]])
  }

  // Greedy removal keeps an element exactly if it is like no earlier one that is kept.
  lemma {:induction false} DedupedPicks<T(!new)>(like: (T, T) -> bool, s: seq<T>) returns (at: seq<nat>)
    ensures Picks(s, at, Deduped(like, s))
    ensures forall i: nat :: i < |s| ==> (Picked(at, i) <==> !LikeEarlier(like, s, at, i))
  {
    at := [];
    if s != [] {
      var n := |s| - 1;
      var before := DedupedPicks(like, s[..n]);
      var kept := Deduped(like, s[..n]);
      PickOneMore(s, before, kept);
      var dropped := FirstMatch(like, s[n], kept) < |kept|;
      at := if dropped then before else before + [n];
      LastIsDecided(like, s, before, kept);
      forall i: nat | i < |s| ensures Picked(at, i) <==> !LikeEarlier(like, s, at, i) {
        if i < n {
          SameEarlier(like, s, before, at, i);
        } else {
          SameEarlier(like, s, before, at, n);
          assert !Picked(before, n);
        }
      }
    }
  }

  lemma LastIsDecided<T>(like: (T, T) -> bool, s: seq<T>, at: seq<nat>, kept: seq<T>)
    requires s != [] && Picks(s[..|s| - 1], at, kept)
    ensures Rising(at, |s|)
    ensures FirstMatch(like, s[|s| - 1], kept) < |kept| <==> LikeEarlier(like, s, at, |s| - 1)
  {
    var n, c := |s| - 1, FirstMatch(like, s[|s| - 1], kept);
    if c < |kept| {
      assert at[c] < n && like(s[n], s[at[c]]);
    }
  }

  // Whether an element is like an earlier one does not depend on the positions from it on.
  lemma SameEarlier<T>(like: (T, T) -> bool, s: seq<T>, before: seq<nat>, at: seq<nat>, i: nat)
    requires s != [] && i < |s| && Rising(before, |s| - 1) && Rising(at, |s|)
    requires at == before || at == before + [|s| - 1]
    ensures LikeEarlier(like, s, at, i) <==> LikeEarlier(like, s, before, i)
    ensures i < |s| - 1 ==> (LikeEarlier(like, s, before, i) <==> LikeEarlier(like, s[..|s| - 1], before, i))
    ensures i < |s| - 1 ==> (Picked(at, i) <==> Picked(before, i))
  {
    if j :| 0 <= j < |before| && before[j] < i && like(s[i], s[before[j]]) {
      assert at[j] == before[j];
    }
    if i < |s| - 1 {
      if j :| 0 <= j < |before| && before[j] == i {
        assert at[j] == i;
      }
      if LikeEarlier(like, s[..|s| - 1], before, i) {
        var j :| 0 <= j < |before| && before[j] < i && like(s[..|s| - 1][i], s[..|s| - 1][before[j]]);
        assert s[..|s| - 1][before[j]] == s[before[j]];
      }
      if LikeEarlier(like, s, before, i) {
        var j :| 0 <= j < |before| && before[j] < i && like(s[i], s[before[j]]);
        assert s[..|s| - 1][before[j]] == s[before[j]];
      }
    }
  }

  // Of picked elements the first few are picked at the first few positions.
  lemma PicksPrefix<T>(s: seq<T>, at: seq<nat>, picked: seq<T>, k: nat)
    requires Picks(s, at, picked) && k <= |at|
    ensures Picks(s, at[..k], picked[..k])
  {
  }

  lemma PicksAll<T>(s: seq<T>) returns (at: seq<nat>)
    ensures Picks(s, at, s) && forall i: nat :: i < |s| ==> Picked(at, i)
  {
    at := seq(|s|, i requires 0 <= i => i);
    forall i: nat | i < |s| ensures Picked(at, i) {
      assert at[i] == i;
    }
  }

  // x stands before y.
  ghost predicate Before<T>(s: seq<T>, x: T, y: T) {
    exists i, j :: 0 <= i < j < |s| && s[i] == x && s[j] == y
  }

  lemma BeforeMembers<T>(s: seq<T>, x: T, y: T)
    requires Before(s, x, y)
    ensures x in s && y in s
  {
  }

  lemma BeforeLast<T>(s: seq<T>, z: T, x: T, y: T)
    ensures Before(s + [z], x, y) <==> Before(s, x, y) || (x in s && y == z)
  {
    if i, j :| 0 <= i < j < |s + [z]| && (s + [z])[i] == x && (s + [z])[j] == y {
      assert j < |s| ==> s[i] == x && s[j] == y;
      assert s[i] in s;
    }
    if Before(s, x, y) {
      var i, j :| 0 <= i < j < |s| && s[i] == x && s[j] == y;
      assert (s + [z])[i] == x && (s + [z])[j] == y;
    }
    if x in s && y == z {
      var i :| 0 <= i < |s| && s[i] == x;
      assert (s + [z])[i] == x && (s + [z])[|s|] == y;
    }
  }

  // A filter keeps who stands before whom.
  lemma {:induction false} FilterBefore<T(!new)>(p: T -> bool, s: seq<T>, x: T, y: T)
    ensures Before(Filter(p, s), x, y) <==> p(x) && p(y) && Before(s, x, y)
  {
    if s != [] {
      var init, z := s[..|s| - 1], s[|s| - 1];
      FilterBefore(p, init, x, y);
      BeforeLast(init, z, x, y);
      BeforeLast(Filter(p, init), z, x, y);
      assert s == init + [z];
    }
  }
}
