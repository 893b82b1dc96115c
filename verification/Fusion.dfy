/** Reciprocal rank fusion: the accumulating loop, its closed form, and what it conserves. */
module Fusion {
  import opened Seqs
  import opened Sorting
  import opened Reals
  import Bm25

  // A dictionary of scores with its keys in insertion order.
  datatype Scores = Scores(keys: seq<string>, values: map<string, real>)

  const NO_SCORES := Scores([], map[])
  const RRF_K := 60

  datatype Outcome = LengthMismatch | Unauthorized(offending: set<string>) | Fused(scores: Scores)

  // fused[id] = fused.get(id, 0.0) + x
  function Bump(s: Scores, id: string, x: real): Scores {
    if id in s.values then s.(values := s.values[id := s.values[id] + x])
    else Scores(s.keys + [id], s.values[id := 0.0 + x])
  }

  // The share of the last position of a ranking.
  function Share(weight: real, k: nat, position: nat): real
    requires position > 0
  {
    weight / (k + position) as real
  }

  function FuseOne(s: Scores, ranking: seq<string>, weight: real, k: nat): Scores {
    if ranking == [] then s
    else Bump(FuseOne(s, ranking[..|ranking| - 1], weight, k), ranking[|ranking| - 1], Share(weight, k, |ranking|))
  }

  function Fuse(rankings: seq<seq<string>>, weights: seq<real>, k: nat): Scores
    requires |rankings| == |weights|
  {
    if rankings == [] then NO_SCORES
    else
      var n := |rankings| - 1;
      FuseOne(Fuse(rankings[..n], weights[..n], k), rankings[n], weights[n], k)
  }

  predicate Ranked(rankings: seq<seq<string>>, id: string) {
    exists i :: 0 <= i < |rankings| && id in rankings[i]
  }

  function Offending(rankings: seq<seq<string>>, authorized: set<string>): set<string> {
    set i, id | 0 <= i < |rankings| && id in rankings[i] && id !in authorized :: id
  }

  method ReciprocalRankFusion(rankings: seq<seq<string>>, authorized: set<string>, weights: Option<seq<real>>, k: nat)
    returns (outcome: Outcome)
    ensures outcome == LengthMismatch <==> weights.Some? && |weights.value| != |rankings|
    ensures outcome.Unauthorized? <==>
              outcome != LengthMismatch && exists id :: Ranked(rankings, id) && id !in authorized
    ensures outcome.Unauthorized? ==>
              forall id :: id in outcome.offending <==> Ranked(rankings, id) && id !in authorized
    ensures outcome.Fused? ==>
              outcome.scores == Fuse(rankings, if weights.Some? then weights.value else seq(|rankings|, _ => 1.0), k)
  {
    var used := if weights.Some? then weights.value else seq(|rankings|, _ => 1.0);
    if |used| != |rankings| {
      return LengthMismatch;
    }
    var offending := Offending(rankings, authorized);
    assert forall id :: id in offending <==> Ranked(rankings, id) && id !in authorized;
    if offending != {} {
      ghost var id :| id in offending;
      assert Ranked(rankings, id) && id !in authorized;
      return Unauthorized(offending);
    }
    var fused := NO_SCORES;
    for i := 0 to |rankings|
      invariant fused == Fuse(rankings[..i], used[..i], k)
    {
      assert rankings[..i + 1][..i] == rankings[..i] && used[..i + 1][..i] == used[..i];
      ghost var before := fused;
      var ranking := rankings[i];
      for p := 0 to |ranking|
        invariant fused == FuseOne(before, ranking[..p], used[i], k)
      {
        assert ranking[..p + 1][..p] == ranking[..p];
        fused := Bump(fused, ranking[p], Share(used[i], k, p + 1));
      }
      assert ranking[..|ranking|] == ranking;
    }
    assert rankings[..|rankings|] == rankings && used[..|used|] == used;
    outcome := Fused(fused);
  }

  // ----- Closed form -----

  // What one ranking gives to an id: a share for each position it holds.
  function RankSum(ranking: seq<string>, weight: real, k: nat, id: string): real {
    if ranking == [] then 0.0
    else
      RankSum(ranking[..|ranking| - 1], weight, k, id) +
      if ranking[|ranking| - 1] == id then Share(weight, k, |ranking|) else 0.0
  }

  function Total(rankings: seq<seq<string>>, weights: seq<real>, k: nat, id: string): real
    requires |rankings| == |weights|
  {
    if rankings == [] then 0.0
    else
      var n := |rankings| - 1;
      Total(rankings[..n], weights[..n], k, id) + RankSum(rankings[n], weights[n], k, id)
  }

  function ScoreOf(s: Scores, id: string): real {
    if id in s.values then s.values[id] else 0.0
  }

  ghost predicate Consistent(s: Scores) {
    NoDup(s.keys) && forall id :: id in s.keys <==> id in s.values
  }

  lemma BumpKeeps(s: Scores, id: string, x: real)
    requires Consistent(s)
    ensures Consistent(Bump(s, id, x))
    ensures ScoreOf(Bump(s, id, x), id) == ScoreOf(s, id) + x
    ensures forall other :: other != id ==> ScoreOf(Bump(s, id, x), other) == ScoreOf(s, other)
  {
    if id !in s.values {
      NoDupAppend(s.keys, id);
    }
  }

  lemma {:induction false} FuseOneAdds(s: Scores, ranking: seq<string>, weight: real, k: nat)
    requires Consistent(s)
    ensures var r := FuseOne(s, ranking, weight, k);
            && Consistent(r)
            && (forall id :: ScoreOf(r, id) == ScoreOf(s, id) + RankSum(ranking, weight, k, id))
            && (forall id :: id in r.values <==> id in s.values || id in ranking)
  {
    if ranking != [] {
      var n := |ranking| - 1;
      assert ranking == ranking[..n] + [ranking[n]];
      FuseOneAdds(s, ranking[..n], weight, k);
      BumpKeeps(FuseOne(s, ranking[..n], weight, k), ranking[n], Share(weight, k, |ranking|));
    }
  }

  // The loop computes the formula: the fused ids are the ranked ids, and each score is the sum of its shares.
  lemma {:induction false} FuseIsFormula(rankings: seq<seq<string>>, weights: seq<real>, k: nat)
    requires |rankings| == |weights|
    ensures var s := Fuse(rankings, weights, k);
            && Consistent(s)
            && (forall id :: ScoreOf(s, id) == Total(rankings, weights, k, id))
            && (forall id :: id in s.values <==> Ranked(rankings, id))
  {
    if rankings != [] {
      var n := |rankings| - 1;
      FuseIsFormula(rankings[..n], weights[..n], k);
      FuseOneAdds(Fuse(rankings[..n], weights[..n], k), rankings[n], weights[n], k);
      forall id ensures Ranked(rankings, id) <==> Ranked(rankings[..n], id) || id in rankings[n] {
        if Ranked(rankings[..n], id) {
          var i :| 0 <= i < n && id in rankings[..n][i];
          assert id in rankings[i];
        }
        if i :| 0 <= i < |rankings| && id in rankings[i] {
          assert i == n || id in rankings[..n][i];
        }
      }
    }
  }

  // Without repetitions, the share is the standard one of the single position.
  lemma {:induction false} RankSumAt(ranking: seq<string>, weight: real, k: nat, id: string)
    requires NoDup(ranking)
    ensures id !in ranking ==> RankSum(ranking, weight, k, id) == 0.0
    ensures forall p :: 0 <= p < |ranking| && ranking[p] == id ==>
                          RankSum(ranking, weight, k, id) == weight / (k + p + 1) as real
  {
    if ranking != [] {
      NoDupPrefix(ranking);
      RankSumAt(ranking[..|ranking| - 1], weight, k, id);
    }
  }

  // ----- Conservation -----

  function SumScores(keys: seq<string>, values: map<string, real>): real
    requires forall id :: id in keys ==> id in values
  {
    if keys == [] then 0.0 else SumScores(keys[..|keys| - 1], values) + values[keys[|keys| - 1]]
  }

  // weight * (1/(k+1) + ... + 1/(k+n))
  function Shares(weight: real, k: nat, n: nat): real {
    if n == 0 then 0.0 else Shares(weight, k, n - 1) + Share(weight, k, n)
  }

  function AllShares(rankings: seq<seq<string>>, weights: seq<real>, k: nat): real
    requires |rankings| == |weights|
  {
    if rankings == [] then 0.0
    else
      var n := |rankings| - 1;
      AllShares(rankings[..n], weights[..n], k) + Shares(weights[n], k, |rankings[n]|)
  }

  lemma {:induction false} SumScoresUpdate(keys: seq<string>, values: map<string, real>, id: string, v: real)
    requires NoDup(keys) && (forall x :: x in keys ==> x in values) && id in values
    ensures SumScores(keys, values[id := v]) ==
              SumScores(keys, values) + if id in keys then v - values[id] else 0.0
  {
    if keys != [] {
      NoDupPrefix(keys);
      SumScoresUpdate(keys[..|keys| - 1], values, id, v);
      assert keys == keys[..|keys| - 1] + [keys[|keys| - 1]];
    }
  }

  lemma {:induction false} SumScoresIgnores(keys: seq<string>, values: map<string, real>, id: string, v: real)
    requires (forall x :: x in keys ==> x in values) && id !in keys
    ensures SumScores(keys, values[id := v]) == SumScores(keys, values)
  {
    if keys != [] {
      SumScoresIgnores(keys[..|keys| - 1], values, id, v);
    }
  }

  lemma SumScoresAppend(keys: seq<string>, values: map<string, real>, id: string, v: real)
    requires (forall x :: x in keys ==> x in values) && id !in keys
    ensures SumScores(keys + [id], values[id := v]) == SumScores(keys, values) + v
  {
    SumScoresIgnores(keys, values, id, v);
    assert (keys + [id])[..|keys|] == keys;
  }

  lemma BumpTotal(s: Scores, id: string, x: real)
    requires Consistent(s)
    ensures Consistent(Bump(s, id, x))
    ensures SumScores(Bump(s, id, x).keys, Bump(s, id, x).values) == SumScores(s.keys, s.values) + x
  {
    BumpKeeps(s, id, x);
    if id in s.values {
      SumScoresUpdate(s.keys, s.values, id, s.values[id] + x);
    } else {
      SumScoresAppend(s.keys, s.values, id, 0.0 + x);
    }
  }

  lemma {:induction false} FuseOneTotal(s: Scores, ranking: seq<string>, weight: real, k: nat)
    requires Consistent(s)
    ensures var r := FuseOne(s, ranking, weight, k);
            Consistent(r) && SumScores(r.keys, r.values) == SumScores(s.keys, s.values) + Shares(weight, k, |ranking|)
  {
    if ranking != [] {
      var n := |ranking| - 1;
      FuseOneTotal(s, ranking[..n], weight, k);
      BumpTotal(FuseOne(s, ranking[..n], weight, k), ranking[n], Share(weight, k, |ranking|));
    }
  }

  // All scores together are all shares handed out, whoever got them.
  lemma {:induction false} FusionConserves(rankings: seq<seq<string>>, weights: seq<real>, k: nat)
    requires |rankings| == |weights|
    ensures var s := Fuse(rankings, weights, k);
            Consistent(s) && SumScores(s.keys, s.values) == AllShares(rankings, weights, k)
  {
    if rankings != [] {
      var n := |rankings| - 1;
      FusionConserves(rankings[..n], weights[..n], k);
      FuseOneTotal(Fuse(rankings[..n], weights[..n], k), rankings[n], weights[n], k);
    }
  }

  // ----- Dominance -----

  // a stands before b wherever b is ranked.
  ghost predicate Ahead(ranking: seq<string>, a: string, b: string) {
    forall q :: 0 <= q < |ranking| && ranking[q] == b ==> exists p :: 0 <= p < q && ranking[p] == a
  }

  lemma ShareOrder(weight: real, k: nat, p: nat, q: nat)
    requires weight > 0.0 && p < q
    ensures 0.0 < weight / (k + q + 1) as real < weight / (k + p + 1) as real
  {
    var x, y := (k + p + 1) as real, (k + q + 1) as real;
    assert 0.0 < x < y;
    MulOrder(x, y, weight);
    QuotientOrder(weight, y, weight, x);
  }

  lemma RankDominance(ranking: seq<string>, weight: real, k: nat, a: string, b: string)
    requires NoDup(ranking) && weight > 0.0 && a != b && Ahead(ranking, a, b)
    ensures RankSum(ranking, weight, k, a) >= RankSum(ranking, weight, k, b)
    ensures a in ranking || b in ranking ==> RankSum(ranking, weight, k, a) > RankSum(ranking, weight, k, b)
  {
    RankSumAt(ranking, weight, k, a);
    RankSumAt(ranking, weight, k, b);
    if b in ranking {
      var q :| 0 <= q < |ranking| && ranking[q] == b;
      var p :| 0 <= p < q && ranking[p] == a;
      ShareOrder(weight, k, p, q);
    } else if a in ranking {
      var p :| 0 <= p < |ranking| && ranking[p] == a;
      ShareOrder(weight, k, p, p + 1);
    }
  }

  // With positive weights, an id that is ahead of another in every ranking scores strictly higher.
  lemma {:induction false} FusionDominance(rankings: seq<seq<string>>, weights: seq<real>, k: nat, a: string, b: string)
    requires |rankings| == |weights| && a != b
    requires forall i :: 0 <= i < |rankings| ==> NoDup(rankings[i]) && weights[i] > 0.0 && Ahead(rankings[i], a, b)
    ensures Total(rankings, weights, k, a) >= Total(rankings, weights, k, b)
    ensures Ranked(rankings, a) || Ranked(rankings, b) ==>
              Total(rankings, weights, k, a) > Total(rankings, weights, k, b)
  {
    if rankings != [] {
      var n := |rankings| - 1;
      FusionDominance(rankings[..n], weights[..n], k, a, b);
      RankDominance(rankings[n], weights[n], k, a, b);
      forall id | Ranked(rankings, id) ensures Ranked(rankings[..n], id) || id in rankings[n] {
        var i :| 0 <= i < |rankings| && id in rankings[i];
        assert i == n || id in rankings[..n][i];
      }
    }
  }

  // ----- Ids, best first -----

  function IdOf(s: Bm25.Scored): string {
    s.id
  }

  function Items(s: Scores): seq<Bm25.Scored> {
    Map((id: string) => Bm25.Scored(id, ScoreOf(s, id)), s.keys)
  }

  // Sorted by falling score, then id, without the scores that are not positive.
  function RankingIds(scored: seq<Bm25.Scored>): seq<string> {
    Map(IdOf, Filter(Bm25.Positive, Sort(Bm25.BestFirst, scored)))
  }
}
