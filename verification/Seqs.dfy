/** Sequence operations shared by the model: filtering, mapping, sums, permutations and Python slices. */
module Seqs {

  datatype Option<+T> = None | Some(value: T) {
    function GetOr(default: T): T {
      if this.Some? then value else default
    }
  }

  // The elements of s that satisfy p, in order: a list comprehension with a condition.
  function Filter<T(!new)>(p: T -> bool, s: seq<T>): (r: seq<T>)
    ensures forall x :: x in r <==> x in s && p(x)
  {
    if s == [] then [] else
    var r := Filter(p, s[..|s| - 1]);
    if p(s[|s| - 1]) then r + [s[|s| - 1]] else r
  }

  function Map<A, B>(f: A -> B, s: seq<A>): (r: seq<B>)
    ensures |r| == |s|
    ensures forall i :: 0 <= i < |s| ==> r[i] == f(s[i])
  {
    seq(|s|, i requires 0 <= i < |s| => f(s[i]))
  }

  ghost predicate NoDup<T>(s: seq<T>) {
    forall i, j :: 0 <= i < j < |s| ==> s[i] != s[j]
  }

  ghost predicate Permuted<T>(a: seq<T>, b: seq<T>) {
    multiset(a) == multiset(b)
  }

  function Sum<T>(f: T -> int, s: seq<T>): int {
    if s == [] then 0 else Sum(f, s[..|s| - 1]) + f(s[|s| - 1])
  }

  // Python's s[:k], where a negative k counts from the end.
  function Take<T>(s: seq<T>, k: int): (r: seq<T>)
    ensures r <= s
  {
    if k >= |s| then s
    else if k >= 0 then s[..k]
    else if |s| + k >= 0 then s[..|s| + k]
    else []
  }

  lemma {:induction false} FilterAppend<T(!new)>(p: T -> bool, a: seq<T>, b: seq<T>)
    ensures Filter(p, a + b) == Filter(p, a) + Filter(p, b)
  {
    if b == [] {
      assert a + b == a;
    } else {
      var b' := b[..|b| - 1];
      assert (a + b)[..|a + b| - 1] == a + b';
      FilterAppend(p, a, b');
    }
  }

  lemma FilterNext<T(!new)>(p: T -> bool, s: seq<T>, x: T)
    ensures Filter(p, s + [x]) == Filter(p, s) + if p(x) then [x] else []
  {
    assert (s + [x])[..|s|] == s;
  }

  lemma {:induction false} FilterCongruent<T(!new)>(p: T -> bool, q: T -> bool, s: seq<T>)
    requires forall x :: x in s ==> p(x) == q(x)
    ensures Filter(p, s) == Filter(q, s)
  {
    if s != [] {
      FilterCongruent(p, q, s[..|s| - 1]);
    }
  }

  lemma {:induction false} FilterAll<T(!new)>(p: T -> bool, s: seq<T>)
    requires forall x :: x in s ==> p(x)
    ensures Filter(p, s) == s
  {
    if s != [] {
      var init, last := s[..|s| - 1], s[|s| - 1];
      assert s == init + [last];
      assert last in s;
      FilterAll(p, init);
    }
  }

  lemma {:induction false} FilterNone<T(!new)>(p: T -> bool, s: seq<T>)
    requires forall x :: x in s ==> !p(x)
    ensures Filter(p, s) == []
  {
    if s != [] {
      FilterNone(p, s[..|s| - 1]);
    }
  }

  // Filtering by q and then by p keeps what one filter by r keeps, when r is their conjunction.
  lemma {:induction false} FilterFilter<T(!new)>(p: T -> bool, q: T -> bool, r: T -> bool, s: seq<T>)
    requires forall x :: x in s ==> r(x) == (p(x) && q(x))
    ensures Filter(p, Filter(q, s)) == Filter(r, s)
  {
    if s != [] {
      var x := s[|s| - 1];
      FilterFilter(p, q, r, s[..|s| - 1]);
      if q(x) {
        FilterAppend(p, Filter(q, s[..|s| - 1]), [x]);
      }
    }
  }

  lemma {:induction false} FilterNoDup<T(!new)>(p: T -> bool, s: seq<T>)
    requires NoDup(s)
    ensures NoDup(Filter(p, s))
  {
    if s != [] {
      FilterNoDup(p, s[..|s| - 1]);
    }
  }

  lemma {:induction false} FilterMultiset<T(!new)>(p: T -> bool, s: seq<T>, x: T)
    ensures multiset(Filter(p, s))[x] == if p(x) then multiset(s)[x] else 0
  {
    if s != [] {
      FilterMultiset(p, s[..|s| - 1], x);
      assert s == s[..|s| - 1] + [s[|s| - 1]];
    }
  }

  lemma PermutedFilter<T(!new)>(p: T -> bool, a: seq<T>, b: seq<T>)
    requires Permuted(a, b)
    ensures Permuted(Filter(p, a), Filter(p, b))
  {
    forall x ensures multiset(Filter(p, a))[x] == multiset(Filter(p, b))[x] {
      FilterMultiset(p, a, x);
      FilterMultiset(p, b, x);
    }
  }

  lemma NoDupAppend<T>(s: seq<T>, x: T)
    requires NoDup(s) && x !in s
    ensures NoDup(s + [x])
  {
    forall i, j | 0 <= i < j < |s| + 1 ensures (s + [x])[i] != (s + [x])[j] {
      assert (s + [x])[i] == s[i];
    }
  }

  lemma NoDupPrefix<T>(s: seq<T>)
    requires NoDup(s) && s != []
    ensures NoDup(s[..|s| - 1]) && s[|s| - 1] !in s[..|s| - 1]
  {
  }

  lemma PermutedMembers<T>(a: seq<T>, b: seq<T>)
    requires Permuted(a, b)
    ensures |a| == |b|
    ensures forall x :: x in a <==> x in b
  {
    assert |multiset(a)| == |a| && |multiset(b)| == |b|;
    assert forall x :: x in a <==> x in multiset(a);
    assert forall x :: x in b <==> x in multiset(b);
  }

  lemma SplitAt<T>(s: seq<T>, i: nat)
    requires i < |s|
    ensures s == s[..i] + [s[i]] + s[i + 1..]
    ensures multiset(s) == multiset(s[..i] + s[i + 1..]) + multiset{s[i]}
  {
    assert s == s[..i] + [s[i]] + s[i + 1..];
  }

  lemma RemoveBoth<T>(a: seq<T>, b: seq<T>, i: nat)
    requires Permuted(a, b) && i < |b| && a != [] && b[i] == a[|a| - 1]
    ensures Permuted(a[..|a| - 1], b[..i] + b[i + 1..])
  {
    var x, a', b' := a[|a| - 1], a[..|a| - 1], b[..i] + b[i + 1..];
    assert a == a' + [x];
    SplitAt(b, i);
    assert multiset(a') == multiset(a) - multiset{x};
    assert multiset(b') == multiset(b) - multiset{x};
  }

  lemma {:induction false} SumAppend<T>(f: T -> int, a: seq<T>, b: seq<T>)
    ensures Sum(f, a + b) == Sum(f, a) + Sum(f, b)
  {
    if b == [] {
      assert a + b == a;
    } else {
      assert (a + b)[..|a + b| - 1] == a + b[..|b| - 1];
      SumAppend(f, a, b[..|b| - 1]);
    }
  }

  lemma {:induction false} SumCongruent<T>(f: T -> int, g: T -> int, s: seq<T>)
    requires forall x :: x in s ==> f(x) == g(x)
    ensures Sum(f, s) == Sum(g, s)
  {
    if s != [] {
      SumCongruent(f, g, s[..|s| - 1]);
    }
  }

  // A sum does not depend on the order of its terms.
  lemma {:induction false} SumPermuted<T>(f: T -> int, a: seq<T>, b: seq<T>)
    requires Permuted(a, b)
    ensures Sum(f, a) == Sum(f, b)
  {
    PermutedMembers(a, b);
    if a != [] {
      var x, a' := a[|a| - 1], a[..|a| - 1];
      assert a == a' + [x];
      assert x in b;
      var i :| 0 <= i < |b| && b[i] == x;
      SplitAt(b, i);
      var b' := b[..i] + b[i + 1..];
      RemoveBoth(a, b, i);
      SumPermuted(f, a', b');
      SumAppend(f, b[..i], b[i + 1..]);
      SumAppend(f, b[..i] + [x], b[i + 1..]);
      SumAppend(f, b[..i], [x]);
    }
  }

  lemma MapLast<A, B>(f: A -> B, s: seq<A>)
    requires s != []
    ensures Map(f, s) == Map(f, s[..|s| - 1]) + [f(s[|s| - 1])]
  {
  }

  lemma MapAppend<A, B>(f: A -> B, a: seq<A>, b: seq<A>)
    ensures Map(f, a + b) == Map(f, a) + Map(f, b)
  {
  }

  lemma MembersOfPrefix<T>(a: seq<T>, b: seq<T>)
    requires a <= b
    ensures forall x :: x in a ==> x in b
    ensures NoDup(b) ==> NoDup(a)
  {
    assert forall i :: 0 <= i < |a| ==> a[i] == b[i];
  }

  lemma SplitSeq<T>(s: seq<T>, n: nat)
    requires n <= |s|
    ensures s == s[..n] + s[n..]
  {
  }

  lemma SplitLast<T>(s: seq<T>)
    requires s != []
    ensures s == s[..|s| - 1] + [s[|s| - 1]]
  {
  }

  lemma PrefixNext<T>(s: seq<T>, i: nat)
    requires i < |s|
    ensures s[..i + 1] == s[..i] + [s[i]]
  {
  }

  lemma FullPrefix<T>(s: seq<T>, n: nat)
    requires n == |s|
    ensures s[..n] == s
  {
  }

  // Elements that differ under f still do once the list is filtered.
  lemma {:induction false} KeepsDistinct<A(!new), B>(f: A -> B, p: A -> bool, s: seq<A>)
    requires NoDup(Map(f, s))
    ensures NoDup(Map(f, Filter(p, s)))
    ensures forall y :: y in Map(f, Filter(p, s)) ==> y in Map(f, s)
  {
    if s != [] {
      var n := |s| - 1;
      assert Map(f, s)[..n] == Map(f, s[..n]);
      NoDupPrefix(Map(f, s));
      KeepsDistinct(f, p, s[..n]);
      if p(s[n]) {
        NoDupAppend(Map(f, Filter(p, s[..n])), f(s[n]));
        assert Map(f, Filter(p, s)) == Map(f, Filter(p, s[..n])) + [f(s[n])];
      }
    }
  }

  lemma PrefixOfPrefix<T>(s: seq<T>, n: nat, k: nat)
    requires k <= n <= |s|
    ensures s[..n][..k] == s[..k]
  {
  }

  lemma HeadAndTail<T>(s: seq<T>)
    requires s != []
    ensures s == [s[0]] + s[1..]
  {
  }

  lemma MapWithout<A, B>(f: A -> B, s: seq<A>, i: nat)
    requires i < |s|
    ensures multiset(Map(f, s)) == multiset(Map(f, s[..i] + s[i + 1..])) + multiset{f(s[i])}
  {
    var m := Map(f, s);
    SplitAt(m, i);
    assert m[..i] + m[i + 1..] == Map(f, s[..i] + s[i + 1..]);
  }

  lemma {:induction false} MapPermuted<A, B>(f: A -> B, a: seq<A>, b: seq<A>)
    requires Permuted(a, b)
    ensures Permuted(Map(f, a), Map(f, b))
  {
    PermutedMembers(a, b);
    if a == [] {
      assert Map(f, a) == Map(f, b);
    } else {
      var n := |a| - 1;
      assert a[n] in b;
      var i :| 0 <= i < |b| && b[i] == a[n];
      RemoveBoth(a, b, i);
      MapPermuted(f, a[..n], b[..i] + b[i + 1..]);
      MapWithout(f, b, i);
      MapWithout(f, a, n);
      assert a[..n] + a[n + 1..] == a[..n];
    }
  }

  // A sequence without repetitions has no repetitions in any order.
  lemma NoDupPermuted<T>(a: seq<T>, b: seq<T>)
    requires Permuted(a, b) && NoDup(a)
    ensures NoDup(b)
  {
    forall i, j | 0 <= i < j < |b| ensures b[i] != b[j] {
      if b[i] == b[j] {
        SplitAt(b, i);
        var b' := b[..i] + b[i + 1..];
        assert b'[j - 1] == b[j];
        assert multiset(b)[b[i]] >= 2;
        NoDupCount(a, b[i]);
      }
    }
  }

  lemma {:induction false} NoDupCount<T>(s: seq<T>, x: T)
    requires NoDup(s)
    ensures multiset(s)[x] <= 1
  {
    if s != [] {
      var s' := s[..|s| - 1];
      assert s == s' + [s[|s| - 1]];
      NoDupCount(s', x);
      if s[|s| - 1] == x {
        assert x !in s';
      }
    }
  }
}
