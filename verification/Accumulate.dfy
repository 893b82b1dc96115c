/** Lists that keep the first element of each key, as a list with a seen-set beside it does. */
module Accumulate {
  import opened Seqs

  function FlatMap<A, B>(f: A -> seq<B>, s: seq<A>): seq<B> {
    if s == [] then [] else FlatMap(f, s[..|s| - 1]) + f(s[|s| - 1])
  }

  function Same<T>(x: T): T {
    x
  }

  function AddNew<T, K(==)>(key: T -> K, s: seq<T>, x: T): seq<T> {
    if key(x) in Map(key, s) then s else s + [x]
  }

  function AddAll<T, K(==)>(key: T -> K, s: seq<T>, xs: seq<T>): seq<T> {
    if xs == [] then s else AddNew(key, AddAll(key, s, xs[..|xs| - 1]), xs[|xs| - 1])
  }

  function KeysOf<T, K(==)>(key: T -> K, s: seq<T>): set<K> {
    set k | k in Map(key, s)
  }

  lemma AddNewKeys<T, K>(key: T -> K, s: seq<T>, x: T)
    ensures Map(key, s + [x]) == Map(key, s) + [key(x)]
    ensures forall k :: k in Map(key, AddNew(key, s, x)) <==> k in Map(key, s) || k == key(x)
    ensures NoDup(Map(key, s)) ==> NoDup(Map(key, AddNew(key, s, x)))
    ensures s <= AddNew(key, s, x)
  {
    assert Map(key, s + [x]) == Map(key, s) + [key(x)];
    if NoDup(Map(key, s)) && key(x) !in Map(key, s) {
      NoDupAppend(Map(key, s), key(x));
    }
  }

  lemma {:induction false} AddAllAppend<T, K>(key: T -> K, s: seq<T>, xs: seq<T>, ys: seq<T>)
    ensures AddAll(key, s, xs + ys) == AddAll(key, AddAll(key, s, xs), ys)
  {
    if ys == [] {
      assert xs + ys == xs;
    } else {
      assert (xs + ys)[..|xs + ys| - 1] == xs + ys[..|ys| - 1];
      AddAllAppend(key, s, xs, ys[..|ys| - 1]);
    }
  }

  lemma AddOne<T, K>(key: T -> K, s: seq<T>, x: T)
    ensures AddAll(key, s, [x]) == AddNew(key, s, x)
  {
    assert AddAll(key, s, [x][..0]) == s;
  }

  // The keys of the list are those of everything given, each once; what was there stays in place.
  lemma {:induction false} AddAllKeys<T, K>(key: T -> K, s: seq<T>, xs: seq<T>)
    ensures forall k :: k in Map(key, AddAll(key, s, xs)) <==> k in Map(key, s) || k in Map(key, xs)
    ensures NoDup(Map(key, s)) ==> NoDup(Map(key, AddAll(key, s, xs)))
    ensures s <= AddAll(key, s, xs)
  {
    if xs != [] {
      var init, x := xs[..|xs| - 1], xs[|xs| - 1];
      AddAllKeys(key, s, init);
      AddNewKeys(key, AddAll(key, s, init), x);
      AddNewKeys(key, init, x);
      assert xs == init + [x];
      SelfPrefix(s, AddAll(key, s, init), AddAll(key, s, xs));
    } else {
      assert Map(key, xs) == [];
    }
  }

  lemma SelfPrefix<T>(a: seq<T>, b: seq<T>, c: seq<T>)
    requires a <= b <= c
    ensures a <= c
  {
  }

  lemma {:induction false} AddAllMembers<T, K>(key: T -> K, s: seq<T>, xs: seq<T>, x: T)
    requires x in AddAll(key, s, xs)
    ensures x in s || x in xs
  {
    if xs != [] && x in AddAll(key, s, xs[..|xs| - 1]) {
      AddAllMembers(key, s, xs[..|xs| - 1], x);
    }
  }

  // x is the first element of xs with its key.
  ghost predicate FirstOfKey<T, K>(key: T -> K, xs: seq<T>, x: T) {
    exists i: nat :: i < |xs| && xs[i] == x && forall j: nat :: j < i ==> key(xs[j]) != key(x)
  }

  lemma {:induction false} KeyTaken<T, K>(key: T -> K, s: seq<T>, xs: seq<T>, j: nat)
    requires j < |xs|
    ensures key(xs[j]) in Map(key, AddAll(key, s, xs))
  {
    var init, x := xs[..|xs| - 1], xs[|xs| - 1];
    AddNewKeys(key, AddAll(key, s, init), x);
    if j < |xs| - 1 {
      KeyTaken(key, s, init, j);
    }
  }

  // Of the elements given with one key, the first is kept.
  lemma {:induction false} FirstIsKept<T, K>(key: T -> K, xs: seq<T>, x: T)
    requires x in AddAll(key, [], xs)
    ensures FirstOfKey(key, xs, x)
  {
    var init, last := xs[..|xs| - 1], xs[|xs| - 1];
    var before := AddAll(key, [], init);
    if x in before {
      FirstIsKept(key, init, x);
      var i: nat :| i < |init| && init[i] == x && forall j: nat :: j < i ==> key(init[j]) != key(x);
      assert xs[i] == x;
    } else {
      forall j: nat | j < |init| ensures key(xs[j]) != key(x) {
        KeyTaken(key, [], init, j);
        assert init[j] == xs[j] && key(x) !in Map(key, before);
      }
      assert xs[|init|] == x;
    }
  }

  lemma {:induction false} FlatMapAppend<A, B>(f: A -> seq<B>, a: seq<A>, b: seq<A>)
    ensures FlatMap(f, a + b) == FlatMap(f, a) + FlatMap(f, b)
  {
    if b == [] {
      assert a + b == a;
    } else {
      assert (a + b)[..|a + b| - 1] == a + b[..|b| - 1];
      FlatMapAppend(f, a, b[..|b| - 1]);
    }
  }

  lemma {:induction false} FlatMapNone<A, B>(f: A -> seq<B>, s: seq<A>)
    requires forall x :: x in s ==> f(x) == []
    ensures FlatMap(f, s) == []
  {
    if s != [] {
      FlatMapNone(f, s[..|s| - 1]);
    }
  }

  // A function that gives one element each flattens to a map.
  lemma {:induction false} FlatMapSingles<A, B>(f: A -> seq<B>, g: A -> B, s: seq<A>)
    requires forall x :: x in s ==> f(x) == [g(x)]
    ensures FlatMap(f, s) == Map(g, s)
  {
    if s != [] {
      FlatMapSingles(f, g, s[..|s| - 1]);
      MapLast(g, s);
    }
  }

  // Elements with distinct keys are all kept.
  lemma {:induction false} AddDistinct<T, K>(key: T -> K, s: seq<T>)
    requires NoDup(Map(key, s))
    ensures AddAll(key, [], s) == s
  {
    if s != [] {
      MapLast(key, s);
      NoDupPrefix(Map(key, s));
      AddDistinct(key, s[..|s| - 1]);
    }
  }

  lemma FlatMapNext<A, B>(f: A -> seq<B>, s: seq<A>, i: nat)
    requires i < |s|
    ensures FlatMap(f, s[..i + 1]) == FlatMap(f, s[..i]) + f(s[i])
  {
    assert s[..i + 1][..i] == s[..i];
  }

  lemma {:induction false} FlatMapMembers<A, B>(f: A -> seq<B>, s: seq<A>, y: B)
    ensures y in FlatMap(f, s) <==> exists x :: x in s && y in f(x)
  {
    if s != [] {
      var init, x := s[..|s| - 1], s[|s| - 1];
      assert forall z :: z in s <==> z in init || z == x;
      FlatMapMembers(f, init, y);
    }
  }

  lemma MapMembers<A, B>(f: A -> B, s: seq<A>, y: B)
    ensures y in Map(f, s) <==> exists x :: x in s && y == f(x)
  {
    if y in Map(f, s) {
      var i :| 0 <= i < |s| && Map(f, s)[i] == y;
      assert s[i] in s;
    }
    if x :| x in s && y == f(x) {
      var i :| 0 <= i < |s| && s[i] == x;
      assert Map(f, s)[i] == y;
    }
  }

  lemma FlatMapMiddle<A, B>(f: A -> seq<B>, p: seq<A>, x: A, q: seq<A>)
    ensures multiset(FlatMap(f, p + [x] + q)) == multiset(FlatMap(f, p + q)) + multiset(f(x))
  {
    FlatMapAppend(f, p + [x], q);
    FlatMapAppend(f, p, [x]);
    FlatMapAppend(f, p, q);
    assert FlatMap(f, [x]) == f(x);
  }

  lemma {:induction false} FlatMapPermuted<A, B>(f: A -> seq<B>, a: seq<A>, b: seq<A>)
    requires Permuted(a, b)
    ensures Permuted(FlatMap(f, a), FlatMap(f, b))
  {
    PermutedMembers(a, b);
    if a != [] {
      var n := |a| - 1;
      assert a[n] in b;
      var i :| 0 <= i < |b| && b[i] == a[n];
      RemoveBoth(a, b, i);
      FlatMapPermuted(f, a[..n], b[..i] + b[i + 1..]);
      SplitAt(b, i);
      FlatMapMiddle(f, b[..i], b[i], b[i + 1..]);
    }
  }

  // ----- Unordered pairs -----

  function With<A, B>(f: (A, A) -> seq<B>, x: A): A -> seq<B> {
    (y: A) => f(x, y)
  }

  // What f finds for each pair of an element and a later one, as two nested loops do.
  function Pairs<A, B>(f: (A, A) -> seq<B>, s: seq<A>): seq<B> {
    if s == [] then [] else FlatMap(With(f, s[0]), s[1..]) + Pairs(f, s[1..])
  }

  ghost predicate Commutes<A(!new), B>(f: (A, A) -> seq<B>) {
    forall x, y :: f(x, y) == f(y, x)
  }

  lemma PairsNext<A, B>(f: (A, A) -> seq<B>, s: seq<A>, i: nat)
    requires i < |s|
    ensures Pairs(f, s[i..]) == FlatMap(With(f, s[i]), s[i + 1..]) + Pairs(f, s[i + 1..])
  {
    assert s[i..][1..] == s[i + 1..];
  }

  // The pairs of the first i elements are found.
  ghost predicate PairsLeft<A, B>(f: (A, A) -> seq<B>, s: seq<A>, i: nat, found: seq<B>) {
    i <= |s| && found + Pairs(f, s[i..]) == Pairs(f, s)
  }

  lemma NoPairsYet<A, B>(f: (A, A) -> seq<B>, s: seq<A>)
    ensures PairsLeft(f, s, 0, [])
  {
    assert s[0..] == s;
  }

  lemma AllPairs<A, B>(f: (A, A) -> seq<B>, s: seq<A>, found: seq<B>)
    requires PairsLeft(f, s, |s|, found)
    ensures found == Pairs(f, s)
  {
    assert Pairs(f, s[|s|..]) == [];
  }

  lemma Regroup<T>(a: seq<T>, b: seq<T>, c: seq<T>)
    ensures a + (b + c) == a + b + c
  {
  }

  lemma MorePairs<A, B>(f: (A, A) -> seq<B>, s: seq<A>, i: nat, found: seq<B>)
    requires i < |s| && PairsLeft(f, s, i, found)
    ensures PairsLeft(f, s, i + 1, found + FlatMap(With(f, s[i]), s[i + 1..]))
  {
    PairsNext(f, s, i);
    Regroup(found, FlatMap(With(f, s[i]), s[i + 1..]), Pairs(f, s[i + 1..]));
  }

  method CollectPairs<A, B>(f: (A, A) -> seq<B>, s: seq<A>) returns (found: seq<B>)
    ensures found == Pairs(f, s)
  {
    found := [];
    NoPairsYet(f, s);
    for i := 0 to |s|
      invariant PairsLeft(f, s, i, found)
    {
      MorePairs(f, s, i, found);
      found := CollectPairsOf(f, s[i], s[i + 1..], found);
    }
    AllPairs(f, s, found);
  }

  method CollectPairsOf<A, B>(f: (A, A) -> seq<B>, x: A, later: seq<A>, before: seq<B>) returns (found: seq<B>)
    ensures found == before + FlatMap(With(f, x), later)
  {
    found := before;
    for j := 0 to |later|
      invariant found == before + FlatMap(With(f, x), later[..j])
    {
      FlatMapNext(With(f, x), later, j);
      found := found + f(x, later[j]);
    }
    FullPrefix(later, |later|);
  }

  // s is rest with x put in between p and q.
  ghost predicate Inserted<A>(p: seq<A>, x: A, q: seq<A>, s: seq<A>, rest: seq<A>) {
    s == p + [x] + q && rest == p + q
  }

  lemma InsertedTail<A>(p: seq<A>, x: A, q: seq<A>, s: seq<A>, rest: seq<A>)
    requires Inserted(p, x, q, s, rest) && p != []
    ensures s != [] && rest != [] && s[0] == rest[0] && Inserted(p[1..], x, q, s[1..], rest[1..])
  {
  }

  // Taking an element out takes out its pairs with all the others.
  lemma {:induction false} PairsRemove<A(!new), B>(f: (A, A) -> seq<B>, p: seq<A>, x: A, q: seq<A>, s: seq<A>, rest: seq<A>)
    requires Commutes(f) && Inserted(p, x, q, s, rest)
    ensures multiset(Pairs(f, s)) == multiset(Pairs(f, rest)) + multiset(FlatMap(With(f, x), rest))
  {
    if p == [] {
      assert s[0] == x && s[1..] == rest;
    } else {
      InsertedTail(p, x, q, s, rest);
      PairsRemove(f, p[1..], x, q, s[1..], rest[1..]);
      FlatMapMiddle(With(f, s[0]), p[1..], x, q);
      PairsBehind(f, s[0], s[1..], rest[1..], x);
      HeadAndTail(s);
      HeadAndTail(rest);
    }
  }

  lemma PairsBehind<A(!new), B>(f: (A, A) -> seq<B>, h: A, t: seq<A>, t': seq<A>, x: A)
    requires Commutes(f)
    requires multiset(Pairs(f, t)) == multiset(Pairs(f, t')) + multiset(FlatMap(With(f, x), t'))
    requires multiset(FlatMap(With(f, h), t)) == multiset(FlatMap(With(f, h), t')) + multiset(f(h, x))
    ensures multiset(Pairs(f, [h] + t)) == multiset(Pairs(f, [h] + t')) + multiset(FlatMap(With(f, x), [h] + t'))
  {
    assert ([h] + t)[1..] == t && ([h] + t')[1..] == t';
    FlatMapAppend(With(f, x), [h], t');
    assert FlatMap(With(f, x), [h]) == f(h, x);
  }

  lemma PairsWithout<A(!new), B>(f: (A, A) -> seq<B>, s: seq<A>, i: nat)
    requires Commutes(f) && i < |s|
    ensures var rest := s[..i] + s[i + 1..];
            multiset(Pairs(f, s)) == multiset(Pairs(f, rest)) + multiset(FlatMap(With(f, s[i]), rest))
  {
    SplitAt(s, i);
    PairsRemove(f, s[..i], s[i], s[i + 1..], s, s[..i] + s[i + 1..]);
  }

  // For a symmetric f the pairs found do not depend on the order of the elements.
  lemma {:induction false} PairsPermuted<A(!new), B>(f: (A, A) -> seq<B>, a: seq<A>, b: seq<A>)
    requires Commutes(f) && Permuted(a, b)
    ensures Permuted(Pairs(f, a), Pairs(f, b))
  {
    PermutedMembers(a, b);
    if a != [] {
      var n := |a| - 1;
      assert a[n] in b;
      var i :| 0 <= i < |b| && b[i] == a[n];
      var a', b' := a[..n], b[..i] + b[i + 1..];
      RemoveBoth(a, b, i);
      PairsPermuted(f, a', b');
      PairsWithout(f, b, i);
      PairsWithout(f, a, n);
      assert a[..n] + a[n + 1..] == a';
      FlatMapPermuted(With(f, a[n]), a', b');
    }
  }

  // What is found is found for some earlier and some later element, and whatever f finds is found.
  lemma {:induction false} PairsMembers<A, B>(f: (A, A) -> seq<B>, s: seq<A>, y: B)
    ensures y in Pairs(f, s) <==> exists i: nat, j: nat :: i < j < |s| && y in f(s[i], s[j])
  {
    if s != [] {
      var h, rest := s[0], s[1..];
      FlatMapMembers(With(f, h), rest, y);
      PairsMembers(f, rest, y);
      if x :| x in rest && y in f(h, x) {
        var j :| 0 <= j < |rest| && rest[j] == x;
        assert s[0] == h && s[j + 1] == x;
      }
      if i: nat, j: nat :| i < j < |rest| && y in f(rest[i], rest[j]) {
        assert rest[i] == s[i + 1] && rest[j] == s[j + 1];
      }
      if i: nat, j: nat :| i < j < |s| && y in f(s[i], s[j]) {
        if i == 0 {
          assert s[j] == rest[j - 1] && rest[j - 1] in rest;
        } else {
          assert s[i] == rest[i - 1] && s[j] == rest[j - 1];
        }
      }
    }
  }

  // ----- No repetition -----

  // Distinct elements for each element of a list, none for two of them, make up a list without repetition.
  lemma {:induction false} FlatMapDistinct<A, B>(f: A -> seq<B>, s: seq<A>)
    requires forall x :: x in s ==> NoDup(f(x))
    requires forall i, j, y :: 0 <= i < j < |s| && y in f(s[i]) ==> y !in f(s[j])
    ensures NoDup(FlatMap(f, s))
  {
    if s != [] {
      var init, x := s[..|s| - 1], s[|s| - 1];
      FlatMapDistinct(f, init);
      forall y | y in FlatMap(f, init) ensures y !in f(x) {
        FlatMapMembers(f, init, y);
        var z :| z in init && y in f(z);
        var i :| 0 <= i < |init| && init[i] == z;
        assert s[i] == z;
      }
      DisjointDistinct(FlatMap(f, init), f(x));
    }
  }

  lemma DisjointDistinct<T>(a: seq<T>, b: seq<T>)
    requires NoDup(a) && NoDup(b) && forall x :: x in a ==> x !in b
    ensures NoDup(a + b)
  {
    forall i, j | 0 <= i < j < |a + b| ensures (a + b)[i] != (a + b)[j] {
      assert i < |a| <= j ==> a[i] in a && b[j - |a|] in b;
    }
  }

  // Whatever f finds of a pair, it finds once, and of no other pair.
  ghost predicate TellsPairs<A(!new), B(!new)>(f: (A, A) -> seq<B>, s: seq<A>) {
    && (forall i, j :: 0 <= i < j < |s| ==> NoDup(f(s[i], s[j])))
    && forall i, j, k, l, y :: 0 <= i < j < |s| && 0 <= k < l < |s| && y in f(s[i], s[j]) && y in f(s[k], s[l]) ==> i == k && j == l
  }

  lemma {:induction false} PairsDistinct<A(!new), B(!new)>(f: (A, A) -> seq<B>, s: seq<A>)
    requires TellsPairs(f, s)
    ensures NoDup(Pairs(f, s))
  {
    if s != [] {
      var h, rest := s[0], s[1..];
      TailTells(f, s);
      PairsDistinct(f, rest);
      FlatMapDistinct(With(f, h), rest);
      assert forall k :: 0 <= k < |rest| ==> rest[k] == s[k + 1];
      forall y | y in FlatMap(With(f, h), rest) ensures y !in Pairs(f, rest) {
        FlatMapMembers(With(f, h), rest, y);
        PairsMembers(f, rest, y);
        var x :| x in rest && y in f(h, x);
        var j :| 0 <= j < |rest| && rest[j] == x;
        assert s[j + 1] == x;
      }
      DisjointDistinct(FlatMap(With(f, h), rest), Pairs(f, rest));
    }
  }

  lemma TailTells<A(!new), B(!new)>(f: (A, A) -> seq<B>, s: seq<A>)
    requires s != [] && TellsPairs(f, s)
    ensures TellsPairs(f, s[1..])
    ensures forall x :: x in s[1..] ==> NoDup(With(f, s[0])(x))
    ensures forall i, j, y :: 0 <= i < j < |s[1..]| && y in With(f, s[0])(s[1..][i]) ==> y !in With(f, s[0])(s[1..][j])
  {
    var rest := s[1..];
    assert forall i :: 0 <= i < |rest| ==> rest[i] == s[i + 1];
  }
}
