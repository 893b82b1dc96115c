/** Which ranked memories a selection holds, and in which order: the best of them, position by position. */
module SelectionLaws {
  import opened Seqs
  import opened Models
  import opened Corpus
  import opened Ranking
  import opened Assembler
  import opened Positions
  import Grouping

  // What a slice up to max leaves of n elements; a negative end counts from behind.
  function SliceLength(n: nat, max: int): (k: nat)
    ensures k <= n
  {
    if max >= 0 then (if max <= n then max else n) else if n + max >= 0 then n + max else 0
  }

  lemma TakeIsPrefix<T>(s: seq<T>, max: int)
    ensures Take(s, max) == s[..SliceLength(|s|, max)]
  {
  }

  // The memory at position i repeats an earlier one that is kept, at the threshold or above it.
  ghost predicate Repeats(ranked: seq<Record>, kept: seq<nat>, i: nat, threshold: real)
    requires i < |ranked| && Rising(kept, |ranked|)
  {
    exists j :: 0 <= j < |kept| && kept[j] < i && Grouping.Jaccard(ranked[i], ranked[kept[j]]) >= threshold
  }

  // Selection, position by position: a ranked memory is kept unless near-duplicates are removed and it
  // repeats one that is kept before it; and of those that are kept the first are selected, up to the cap.
  lemma SelectedByPosition(num: Numerics, cfg: Settings, candidates: seq<Record>, query: string) returns (kept: seq<nat>)
    ensures var ranked, selected := Ranked(num, cfg, candidates, query), Selected(num, cfg, candidates, query);
            && Rising(kept, |ranked|)
            && (forall i: nat :: i < |ranked| ==>
                  (Picked(kept, i) <==> !(cfg.dedupe && Repeats(ranked, kept, i, cfg.ranking.dedupeThreshold))))
            && |selected| == SliceLength(|kept|, cfg.maxMemories)
            && forall j :: 0 <= j < |selected| ==> selected[j] == ranked[kept[j]]
  {
    var ranked := Ranked(num, cfg, candidates, query);
    if cfg.dedupe {
      var like := Grouping.AlikeAt(cfg.ranking.dedupeThreshold);
      kept := DedupedPicks(like, ranked);
      TakeIsPrefix(Grouping.Deduped(like, ranked), cfg.maxMemories);
      forall i: nat | i < |ranked|
        ensures LikeEarlier(like, ranked, kept, i) <==> Repeats(ranked, kept, i, cfg.ranking.dedupeThreshold)
      {
        RepeatsIsLike(ranked, kept, i, cfg.ranking.dedupeThreshold);
      }
    } else {
      kept := PicksAll(ranked);
      TakeIsPrefix(ranked, cfg.maxMemories);
    }
  }

  lemma RepeatsIsLike(ranked: seq<Record>, kept: seq<nat>, i: nat, threshold: real)
    requires i < |ranked| && Rising(kept, |ranked|)
    ensures LikeEarlier(Grouping.AlikeAt(threshold), ranked, kept, i) <==> Repeats(ranked, kept, i, threshold)
  {
    var like := Grouping.AlikeAt(threshold);
    if j :| 0 <= j < |kept| && kept[j] < i && like(ranked[i], ranked[kept[j]]) {
      assert Grouping.Jaccard(ranked[i], ranked[kept[j]]) >= threshold;
    }
    if j :| 0 <= j < |kept| && kept[j] < i && Grouping.Jaccard(ranked[i], ranked[kept[j]]) >= threshold {
      assert like(ranked[i], ranked[kept[j]]);
    }
  }

  // So the selected memories stand in ranking order, and any other ranked memory either repeats a selected
  // one that is ranked before it, or is ranked behind all of them while as many as allowed are selected.
  lemma SelectedAreTheBest(num: Numerics, cfg: Settings, candidates: seq<Record>, query: string) returns (at: seq<nat>)
    requires cfg.maxMemories >= 0
    ensures var ranked, selected := Ranked(num, cfg, candidates, query), Selected(num, cfg, candidates, query);
            && Picks(ranked, at, selected)
            && forall i: nat :: i < |ranked| ==>
                 || Picked(at, i)
                 || (cfg.dedupe && Repeats(ranked, at, i, cfg.ranking.dedupeThreshold))
                 || (|selected| == cfg.maxMemories && forall j :: 0 <= j < |at| ==> at[j] < i)
  {
    var kept := SelectedByPosition(num, cfg, candidates, query);
    var ranked, selected := Ranked(num, cfg, candidates, query), Selected(num, cfg, candidates, query);
    at := kept[..|selected|];
    forall i: nat | i < |ranked|
      ensures || Picked(at, i)
              || (cfg.dedupe && Repeats(ranked, at, i, cfg.ranking.dedupeThreshold))
              || (|selected| == cfg.maxMemories && forall j :: 0 <= j < |at| ==> at[j] < i)
    {
      if Picked(kept, i) {
        KeptIsFirstOrBehind(kept, |selected|, i);
      } else {
        RepeatsFirstOrBehind(ranked, kept, |selected|, i, cfg.ranking.dedupeThreshold);
      }
    }
  }

  lemma KeptIsFirstOrBehind(kept: seq<nat>, k: nat, i: nat)
    requires k <= |kept| && Picked(kept, i) && forall x, y :: 0 <= x < y < |kept| ==> kept[x] < kept[y]
    ensures Picked(kept[..k], i) || (k < |kept| && forall x :: 0 <= x < k ==> kept[..k][x] < i)
  {
    var j :| 0 <= j < |kept| && kept[j] == i;
    FirstOrBehind(kept, k, j);
  }

  lemma RepeatsFirstOrBehind(ranked: seq<Record>, kept: seq<nat>, k: nat, i: nat, threshold: real)
    requires i < |ranked| && k <= |kept| && Rising(kept, |ranked|) && Repeats(ranked, kept, i, threshold)
    ensures Repeats(ranked, kept[..k], i, threshold) || (k < |kept| && forall x :: 0 <= x < k ==> kept[..k][x] < i)
  {
    var j :| 0 <= j < |kept| && kept[j] < i && Grouping.Jaccard(ranked[i], ranked[kept[j]]) >= threshold;
    FirstOrBehind(kept, k, j);
    if j < k {
      assert kept[..k][j] == kept[j];
    }
  }

  lemma FirstOrBehind(kept: seq<nat>, k: nat, j: nat)
    requires j < |kept| && k <= |kept| && forall x, y :: 0 <= x < y < |kept| ==> kept[x] < kept[y]
    ensures j < k ==> Picked(kept[..k], kept[j])
    ensures j >= k ==> forall x :: 0 <= x < k ==> kept[..k][x] < kept[j]
  {
    if j < k {
      assert kept[..k][j] == kept[j];
    }
  }

  // Likeness is the number of common tokens of title and body over that of all their tokens.
  lemma JaccardIsRatio(a: Record, b: Record)
    ensures var ta, tb := TokenSet(a), TokenSet(b);
            && (ta + tb == {} ==> Grouping.Jaccard(a, b) == 1.0)
            && (ta + tb != {} ==> Grouping.Jaccard(a, b) * |ta + tb| as real == |ta * tb| as real)
  {
    var ta, tb := TokenSet(a), TokenSet(b);
    if ta == {} || tb == {} {
      assert ta * tb == {};
    }
    if ta + tb != {} {
      assert |ta + tb| > 0;
    }
    if ta == {} && tb != {} {
      assert ta + tb != {};
    }
  }
}
