/** Near-duplicates: greedy removal and clustering, and that the two agree. */
module Grouping {
  import opened Seqs
  import opened Models
  import Ranking

  function Jaccard(a: Record, b: Record): real {
    var sa, sb := Ranking.TokenSet(a), Ranking.TokenSet(b);
    if sa == {} && sb == {} then 1.0
    else if sa == {} || sb == {} then 0.0
    else if |sa + sb| == 0 then 0.0
    else |sa * sb| as real / |sa + sb| as real
  }

  function AlikeAt(threshold: real): (Record, Record) -> bool {
    (a: Record, b: Record) => Jaccard(a, b) >= threshold
  }

  lemma JaccardSymmetric(a: Record, b: Record)
    ensures Jaccard(a, b) == Jaccard(b, a)
  {
    var sa, sb := Ranking.TokenSet(a), Ranking.TokenSet(b);
    assert sa * sb == sb * sa && sa + sb == sb + sa;
  }

  ghost predicate Symmetric<T(!new)>(like: (T, T) -> bool) {
    forall a, b :: like(a, b) == like(b, a)
  }

  lemma AlikeSymmetric(threshold: real)
    ensures Symmetric(AlikeAt(threshold))
  {
    forall a, b ensures AlikeAt(threshold)(a, b) == AlikeAt(threshold)(b, a) {
      JaccardSymmetric(a, b);
    }
  }

  // ----- Removal -----

  // The index of the first kept element that m is like; the list's length when there is none.
  function FirstMatch<T>(like: (T, T) -> bool, m: T, kept: seq<T>): (c: nat)
    ensures c <= |kept|
    ensures c < |kept| ==> like(m, kept[c])
    ensures forall d :: 0 <= d < c ==> !like(m, kept[d])
  {
    if kept == [] then 0
    else
      var n := |kept| - 1;
      var c := FirstMatch(like, m, kept[..n]);
      if c < n || like(m, kept[n]) then c else n + 1
  }

  function Deduped<T>(like: (T, T) -> bool, ms: seq<T>): seq<T> {
    if ms == [] then []
    else
      var kept, m := Deduped(like, ms[..|ms| - 1]), ms[|ms| - 1];
      if FirstMatch(like, m, kept) < |kept| then kept else kept + [m]
  }

  method Dedupe<T>(like: (T, T) -> bool, ms: seq<T>) returns (kept: seq<T>)
    ensures kept == Deduped(like, ms)
  {
    kept := [];
    for i := 0 to |ms|
      invariant kept == Deduped(like, ms[..i])
    {
      assert ms[..i + 1][..i] == ms[..i];
      if !exists c :: 0 <= c < |kept| && like(ms[i], kept[c]) {
        kept := kept + [ms[i]];
      }
    }
    assert ms[..|ms|] == ms;
  }

  ghost predicate LikeAny<T>(like: (T, T) -> bool, m: T, kept: seq<T>) {
    exists c :: 0 <= c < |kept| && like(m, kept[c])
  }

  // What removal keeps is pairwise unlike, and whatever it drops is like something it keeps.
  lemma {:induction false} DedupeIsMaximal<T(!new)>(like: (T, T) -> bool, ms: seq<T>)
    ensures forall a, b :: 0 <= a < b < |Deduped(like, ms)| ==> !like(Deduped(like, ms)[b], Deduped(like, ms)[a])
    ensures forall m :: m in Deduped(like, ms) ==> m in ms
    ensures forall m :: m in ms && m !in Deduped(like, ms) ==> LikeAny(like, m, Deduped(like, ms))
  {
    if ms != [] {
      var init, last := ms[..|ms| - 1], ms[|ms| - 1];
      assert ms == init + [last];
      DedupeIsMaximal(like, init);
      var before, after := Deduped(like, init), Deduped(like, ms);
      forall m | m in ms && m !in after ensures LikeAny(like, m, after) {
        if m in init {
          assert m !in before;
          var c :| 0 <= c < |before| && like(m, before[c]);
          assert after[c] == before[c];
        }
      }
    }
  }

  // ----- Clusters -----

  // The first position from j on, below i, that leads and is like i; i when there is none.
  function Seek<T>(like: (T, T) -> bool, ms: seq<T>, leaders: seq<nat>, i: nat, j: nat): (l: nat)
    requires j <= i < |ms| && |leaders| == i
    ensures j <= l <= i
    ensures l < i ==> leaders[l] == l && like(ms[l], ms[i])
    ensures forall k :: j <= k < l && leaders[k] == k ==> !like(ms[k], ms[i])
    decreases i - j
  {
    if j == i then i
    else if leaders[j] == j && like(ms[j], ms[i]) then j
    else Seek(like, ms, leaders, i, j + 1)
  }

  // For each position the first leading position it is like, or itself: then it leads.
  function LeaderList<T>(like: (T, T) -> bool, ms: seq<T>): (leaders: seq<nat>)
    ensures |leaders| == |ms|
  {
    if ms == [] then []
    else
      var n := |ms| - 1;
      var before := LeaderList(like, ms[..n]);
      before + [Seek(like, ms, before, n, 0)]
  }

  // What a leader list is, without its computation.
  ghost predicate Assigns<T>(like: (T, T) -> bool, ms: seq<T>, leaders: seq<nat>) {
    && |leaders| == |ms|
    && (forall i :: 0 <= i < |ms| ==> leaders[i] <= i && leaders[leaders[i]] == leaders[i])
    && (forall i :: 0 <= i < |ms| && leaders[i] < i ==> like(ms[leaders[i]], ms[i]))
    && (forall i, k :: 0 <= i < |ms| && 0 <= k < leaders[i] && leaders[k] == k ==> !like(ms[k], ms[i]))
  }

  lemma {:induction false} LeaderListAssigns<T>(like: (T, T) -> bool, ms: seq<T>)
    ensures Assigns(like, ms, LeaderList(like, ms))
  {
    if ms != [] {
      var n := |ms| - 1;
      LeaderListAssigns(like, ms[..n]);
      assert ms == ms[..n] + [ms[n]];
      AssignsOneMore(like, ms[..n], ms[n], LeaderList(like, ms[..n]), LeaderList(like, ms)[n]);
    }
  }

  lemma AssignsOneMore<T>(like: (T, T) -> bool, ms: seq<T>, m: T, leaders: seq<nat>, l: nat)
    requires Assigns(like, ms, leaders) && l <= |ms|
    requires l < |ms| ==> leaders[l] == l && like(ms[l], m)
    requires forall k :: 0 <= k < l && leaders[k] == k ==> !like(ms[k], m)
    ensures Assigns(like, ms + [m], leaders + [l])
  {
    var ms', leaders' := ms + [m], leaders + [l];
    forall i | 0 <= i < |ms'| ensures leaders'[i] <= i && leaders'[leaders'[i]] == leaders'[i] {
    }
    forall i, k | 0 <= i < |ms'| && 0 <= k < leaders'[i] && leaders'[k] == k ensures !like(ms'[k], ms'[i]) {
      assert leaders[k] == k;
    }
  }

  // The positions below n that follow a leader, in order.
  function Followers(leaders: seq<nat>, leader: nat, n: nat): seq<nat>
    requires n <= |leaders|
  {
    if n == 0 then []
    else Followers(leaders, leader, n - 1) + if leaders[n - 1] == leader then [n - 1] else []
  }

  predicate Several(g: seq<nat>) {
    |g| > 1
  }

  // The groups, singletons included, of the leaders below n.
  function Clusters(leaders: seq<nat>, n: nat): seq<seq<nat>>
    requires n <= |leaders|
  {
    if n == 0 then []
    else
      Clusters(leaders, n - 1) + if leaders[n - 1] == n - 1 then [Followers(leaders, n - 1, |leaders|)] else []
  }

  function Heads(leaders: seq<nat>, n: nat): seq<nat>
    requires n <= |leaders|
  {
    if n == 0 then [] else Heads(leaders, n - 1) + if leaders[n - 1] == n - 1 then [n - 1] else []
  }

  // The clustering loops over distinct objects, which positions stand for. Singletons are left out.
  method FindDuplicateGroups<T>(like: (T, T) -> bool, ms: seq<T>) returns (groups: seq<seq<nat>>)
    ensures groups == Filter(Several, Clusters(LeaderList(like, ms), |ms|))
  {
    LeaderListAssigns(like, ms);
    groups := GatherGroups(like, ms, LeaderList(like, ms));
  }

  method GatherGroups<T>(like: (T, T) -> bool, ms: seq<T>, ghost leaders: seq<nat>) returns (groups: seq<seq<nat>>)
    requires Assigns(like, ms, leaders)
    ensures groups == Filter(Several, Clusters(leaders, |ms|))
  {
    groups := [];
    var taken := seq(|ms|, _ => false);
    for i := 0 to |ms|
      invariant groups == Filter(Several, Clusters(leaders, i))
      invariant Marks(taken, leaders, i)
    {
      LedIffLike(like, ms, leaders, i);
      groups, taken := GatherNext(like, ms, leaders, i, groups, taken);
    }
  }

  // One pass of the outer loop: an untaken position gathers its group.
  method GatherNext<T>(like: (T, T) -> bool, ms: seq<T>, ghost leaders: seq<nat>, i: nat,
                       before: seq<seq<nat>>, marked: seq<bool>)
    returns (groups: seq<seq<nat>>, taken: seq<bool>)
    requires |leaders| == |ms| && i < |ms| && Marks(marked, leaders, i)
    requires forall x :: 0 <= x < |leaders| ==> leaders[x] <= x
    requires leaders[i] == i ==>
               forall k :: i < k < |ms| && i <= leaders[k] ==> (like(ms[i], ms[k]) <==> leaders[k] == i)
    requires leaders[i] != i ==> forall k :: 0 <= k < |ms| ==> leaders[k] != i
    requires before == Filter(Several, Clusters(leaders, i))
    ensures groups == Filter(Several, Clusters(leaders, i + 1)) && Marks(taken, leaders, i + 1)
  {
    groups, taken := before, marked;
    NextCluster(leaders, i);
    if !taken[i] {
      var group;
      group, taken := GatherGroup(like, ms, leaders, i, taken);
      if |group| > 1 {
        groups := groups + [group];
      }
    }
  }

  // The marked positions are those whose leader comes before n.
  ghost predicate Marks(taken: seq<bool>, leaders: seq<nat>, n: nat) {
    && |taken| == |leaders|
    && forall x :: 0 <= x < |taken| ==> (taken[x] <==> leaders[x] < n)
  }

  lemma NextCluster(leaders: seq<nat>, i: nat)
    requires i < |leaders|
    ensures var before, group := Filter(Several, Clusters(leaders, i)), Followers(leaders, i, |leaders|);
            Filter(Several, Clusters(leaders, i + 1)) ==
            if leaders[i] == i && |group| > 1 then before + [group] else before
  {
    var group, before := Followers(leaders, i, |leaders|), Clusters(leaders, i);
    if leaders[i] == i {
      FilterAppend(Several, before, [group]);
      assert Filter(Several, [group]) == if |group| > 1 then [group] else [];
    } else {
      assert before + [] == before;
    }
  }

  // Among the positions that no earlier leader takes, a leader takes those it is like; others take none.
  lemma LedIffLike<T>(like: (T, T) -> bool, ms: seq<T>, leaders: seq<nat>, i: nat)
    requires Assigns(like, ms, leaders) && i < |ms|
    ensures leaders[i] == i ==>
              forall k :: i < k < |ms| && i <= leaders[k] ==> (like(ms[i], ms[k]) <==> leaders[k] == i)
    ensures leaders[i] != i ==> forall k :: 0 <= k < |ms| ==> leaders[k] != i
    ensures forall x :: 0 <= x < |leaders| ==> leaders[x] <= x
  {
  }

  method GatherGroup<T>(like: (T, T) -> bool, ms: seq<T>, ghost leaders: seq<nat>, i: nat, before: seq<bool>)
    returns (group: seq<nat>, taken: seq<bool>)
    requires |leaders| == |ms| && i < |ms| && leaders[i] == i && Marks(before, leaders, i)
    requires forall x :: 0 <= x < |leaders| ==> leaders[x] <= x
    requires forall k :: i < k < |ms| && i <= leaders[k] ==> (like(ms[i], ms[k]) <==> leaders[k] == i)
    ensures group == Followers(leaders, i, |ms|) && Marks(taken, leaders, i + 1)
  {
    NoneBefore(leaders, i, i);
    group, taken := [i], before[i := true];
    for k := i + 1 to |ms|
      invariant group == Followers(leaders, i, k) && |taken| == |ms|
      invariant forall x :: 0 <= x < k ==> taken[x] == (leaders[x] < i + 1)
      invariant forall x :: k <= x < |ms| ==> taken[x] == (leaders[x] < i)
    {
      if !taken[k] && like(ms[i], ms[k]) {
        group := group + [k];
        taken := taken[k := true];
      }
    }
  }

  // Nothing before a position follows it.
  lemma {:induction false} NoneBefore(leaders: seq<nat>, i: nat, n: nat)
    requires n <= i < |leaders| && forall x :: 0 <= x < |leaders| ==> leaders[x] <= x
    ensures Followers(leaders, i, n) == []
  {
    if n > 0 {
      NoneBefore(leaders, i, n - 1);
    }
  }

  // ----- Agreement -----

  function At<T>(ms: seq<T>, positions: seq<nat>): (r: seq<T>)
    requires forall c :: 0 <= c < |positions| ==> positions[c] < |ms|
    ensures |r| == |positions|
    ensures forall c :: 0 <= c < |r| ==> r[c] == ms[positions[c]]
  {
    seq(|positions|, c requires 0 <= c < |positions| => ms[positions[c]])
  }

  lemma {:induction false} HeadsLead(leaders: seq<nat>, n: nat)
    requires n <= |leaders|
    ensures forall c :: 0 <= c < |Heads(leaders, n)| ==> Heads(leaders, n)[c] < n && leaders[Heads(leaders, n)[c]] == Heads(leaders, n)[c]
    ensures forall a, b :: 0 <= a < b < |Heads(leaders, n)| ==> Heads(leaders, n)[a] < Heads(leaders, n)[b]
    ensures forall i: nat :: i < n && leaders[i] == i ==> i in Heads(leaders, n)
  {
    if n > 0 {
      HeadsLead(leaders, n - 1);
    }
  }

  lemma {:induction false} HeadsPrefix(a: seq<nat>, b: seq<nat>, n: nat)
    requires n <= |a| && n <= |b| && a[..n] == b[..n]
    ensures Heads(a, n) == Heads(b, n)
  {
    if n > 0 {
      assert a[n - 1] == a[..n][n - 1] == b[..n][n - 1] == b[n - 1];
      assert a[..n - 1] == a[..n][..n - 1] == b[..n - 1];
      HeadsPrefix(a, b, n - 1);
    }
  }

  // Greedy removal drops a position exactly when an earlier leader is like it.
  lemma MatchIffLed<T(!new)>(like: (T, T) -> bool, ms: seq<T>, leaders: seq<nat>, heads: seq<nat>, i: nat)
    requires Symmetric(like) && i < |ms| && |leaders| == i
    requires forall c :: 0 <= c < |heads| ==> heads[c] < i && leaders[heads[c]] == heads[c]
    requires forall j: nat :: j < i && leaders[j] == j ==> j in heads
    ensures FirstMatch(like, ms[i], At(ms, heads)) < |heads| <==> Seek(like, ms, leaders, i, 0) < i
  {
    var kept, l := At(ms, heads), Seek(like, ms, leaders, i, 0);
    if l < i {
      var c :| 0 <= c < |heads| && heads[c] == l;
      assert like(ms[i], kept[c]);
    }
    var c := FirstMatch(like, ms[i], kept);
    if c < |heads| {
      assert like(ms[heads[c]], ms[i]);
    }
  }

  // The leaders, in order, are exactly what greedy removal keeps.
  lemma {:induction false} HeadsAreKept<T(!new)>(like: (T, T) -> bool, ms: seq<T>, leaders: seq<nat>)
    requires Symmetric(like) && leaders == LeaderList(like, ms)
    ensures forall c :: 0 <= c < |Heads(leaders, |ms|)| ==> Heads(leaders, |ms|)[c] < |ms|
    ensures At(ms, Heads(leaders, |ms|)) == Deduped(like, ms)
  {
    HeadsLead(leaders, |ms|);
    if ms != [] {
      var n := |ms| - 1;
      var before := LeaderList(like, ms[..n]);
      HeadsAreKept(like, ms[..n], before);
      HeadsLead(before, n);
      HeadsPrefix(before, leaders, n);
      MatchIffLed(like, ms, before, Heads(before, n), n);
      KeptOneMore(like, ms, Heads(before, n), Seek(like, ms, before, n, 0) < n);
    }
  }

  // Every position either leads, and is kept, or is like an earlier one that is kept.
  lemma DroppedHasEarlierKept<T(!new)>(like: (T, T) -> bool, ms: seq<T>, i: nat)
    requires Symmetric(like) && i < |ms|
    ensures var l := LeaderList(like, ms)[i];
            l <= i && ms[l] in Deduped(like, ms) && (l < i ==> like(ms[l], ms[i]))
  {
    var leaders := LeaderList(like, ms);
    var heads, l := Heads(leaders, |ms|), leaders[i];
    LeaderListAssigns(like, ms);
    HeadsLead(leaders, |ms|);
    HeadsAreKept(like, ms, leaders);
    assert leaders[l] == l;
    var c :| 0 <= c < |heads| && heads[c] == l;
    assert At(ms, heads)[c] == ms[l];
  }

  lemma AtAppend<T>(ms: seq<T>, positions: seq<nat>, n: nat)
    requires n < |ms| && forall c :: 0 <= c < |positions| ==> positions[c] < |ms|
    ensures At(ms, positions + [n]) == At(ms, positions) + [ms[n]]
  {
  }

  lemma AtPrefix<T>(ms: seq<T>, positions: seq<nat>, n: nat)
    requires n <= |ms| && forall c :: 0 <= c < |positions| ==> positions[c] < n
    ensures At(ms[..n], positions) == At(ms, positions)
  {
  }

  lemma KeptOneMore<T>(like: (T, T) -> bool, ms: seq<T>, heads: seq<nat>, led: bool)
    requires ms != [] && forall c :: 0 <= c < |heads| ==> heads[c] < |ms| - 1
    requires FirstMatch(like, ms[|ms| - 1], At(ms, heads)) < |heads| <==> led
    requires At(ms[..|ms| - 1], heads) == Deduped(like, ms[..|ms| - 1])
    ensures Deduped(like, ms) == At(ms, heads + if led then [] else [|ms| - 1])
  {
    var n := |ms| - 1;
    AtPrefix(ms, heads, n);
    if led {
      assert heads + [] == heads;
    } else {
      AtAppend(ms, heads, n);
    }
  }

  lemma {:induction false} FollowersMembers(leaders: seq<nat>, leader: nat, n: nat)
    requires n <= |leaders|
    ensures forall i: nat :: i in Followers(leaders, leader, n) <==> i < n && leaders[i] == leader
    ensures NoDup(Followers(leaders, leader, n))
  {
    if n > 0 {
      FollowersMembers(leaders, leader, n - 1);
      if leaders[n - 1] == leader {
        NoDupAppend(Followers(leaders, leader, n - 1), n - 1);
      }
    }
  }

  lemma {:induction false} FollowersHead(leaders: seq<nat>, leader: nat, n: nat)
    requires leader < n <= |leaders| && leaders[leader] == leader
    requires forall x :: 0 <= x < |leaders| ==> leaders[x] <= x
    ensures Followers(leaders, leader, n) != [] && Followers(leaders, leader, n)[0] == leader
  {
    if n == leader + 1 {
      NoneBefore(leaders, leader, leader);
    } else {
      FollowersHead(leaders, leader, n - 1);
    }
  }

  lemma {:induction false} ClustersByHead(leaders: seq<nat>, n: nat)
    requires n <= |leaders|
    ensures |Clusters(leaders, n)| == |Heads(leaders, n)|
    ensures forall c :: 0 <= c < |Heads(leaders, n)| ==>
                          Clusters(leaders, n)[c] == Followers(leaders, Heads(leaders, n)[c], |leaders|)
  {
    if n > 0 {
      ClustersByHead(leaders, n - 1);
    }
  }

  lemma ClusterIs(leaders: seq<nat>, c: nat)
    requires forall x :: 0 <= x < |leaders| ==> leaders[x] <= x
    requires c < |Clusters(leaders, |leaders|)|
    ensures c < |Heads(leaders, |leaders|)|
    ensures var cluster, head := Clusters(leaders, |leaders|)[c], Heads(leaders, |leaders|)[c];
            && cluster != [] && cluster[0] == head && NoDup(cluster)
            && forall i: nat :: i in cluster <==> i < |leaders| && leaders[i] == head
  {
    ClustersByHead(leaders, |leaders|);
    HeadsLead(leaders, |leaders|);
    FollowersMembers(leaders, Heads(leaders, |leaders|)[c], |leaders|);
    FollowersHead(leaders, Heads(leaders, |leaders|)[c], |leaders|);
  }

  ghost predicate InCluster(clusters: seq<seq<nat>>, c: nat, i: nat) {
    c < |clusters| && i in clusters[c]
  }

  // The groups and the left-over singletons partition the input: every position is in exactly one.
  lemma ClustersPartition(leaders: seq<nat>, i: nat)
    requires i < |leaders|
    requires forall x :: 0 <= x < |leaders| ==> leaders[x] <= x && leaders[leaders[x]] == leaders[x]
    ensures var clusters := Clusters(leaders, |leaders|);
            && (exists c: nat :: InCluster(clusters, c, i))
            && (forall c: nat, d: nat :: InCluster(clusters, c, i) && InCluster(clusters, d, i) ==> c == d)
  {
    var clusters, heads := Clusters(leaders, |leaders|), Heads(leaders, |leaders|);
    HeadsLead(leaders, |leaders|);
    ClustersByHead(leaders, |leaders|);
    var leader := leaders[i];
    assert leader in heads;
    var c :| 0 <= c < |heads| && heads[c] == leader;
    ClusterIs(leaders, c);
    assert InCluster(clusters, c, i);
    forall d: nat | InCluster(clusters, d, i) ensures d == c {
      ClusterIs(leaders, d);
    }
  }

  // The first members of the clusters, in order, are the output of removal.
  lemma ClusterHeadsAreKept<T(!new)>(like: (T, T) -> bool, ms: seq<T>)
    requires Symmetric(like)
    ensures var clusters, kept := Clusters(LeaderList(like, ms), |ms|), Deduped(like, ms);
            && |clusters| == |kept|
            && forall c :: 0 <= c < |clusters| ==>
                             clusters[c] != [] && clusters[c][0] < |ms| && ms[clusters[c][0]] == kept[c]
  {
    var leaders := LeaderList(like, ms);
    HeadsAreKept(like, ms, leaders);
    LeaderListAssigns(like, ms);
    ClustersByHead(leaders, |ms|);
    forall c | 0 <= c < |Clusters(leaders, |ms|)|
      ensures Clusters(leaders, |ms|)[c] != [] && Clusters(leaders, |ms|)[c][0] == Heads(leaders, |ms|)[c]
    {
      ClusterIs(leaders, c);
    }
  }

  // For memories: grouping and greedy removal agree at every threshold.
  lemma MemoryGroupsAgree(ms: seq<Record>, threshold: real)
    ensures var clusters := Clusters(LeaderList(AlikeAt(threshold), ms), |ms|);
            var kept := Deduped(AlikeAt(threshold), ms);
            && |clusters| == |kept|
            && forall c :: 0 <= c < |clusters| ==>
                             clusters[c] != [] && clusters[c][0] < |ms| && ms[clusters[c][0]] == kept[c]
  {
    AlikeSymmetric(threshold);
    ClusterHeadsAreKept(AlikeAt(threshold), ms);
  }
}
