/** Exact result sets, order independence and dominance of retrieval. */
module RetrievalLaws {
  import opened Seqs
  import opened Sorting
  import opened Text
  import opened Models
  import opened StoreModel
  import opened Corpus
  import opened Ranking
  import opened Retrieval
  import Bm25
  import Fusion
  import Reals

  // ----- Order independence -----

  lemma LastWithPermuted(a: seq<Record>, b: seq<Record>, id: string)
    requires Permuted(a, b) && NoDup(Ids(a))
    ensures LastWith(a, id) == LastWith(b, id)
  {
    PermutedMembers(a, b);
    MapPermuted(IdOf, a, b);
    PermutedMembers(Ids(a), Ids(b));
    if id in Ids(a) {
      DistinctIds(a, LastWith(a, id).value, LastWith(b, id).value);
    }
  }

  lemma GatherPermuted(num: Numerics, a: seq<Record>, b: seq<Record>, query: string, mode: Mode)
    requires Permuted(a, b)
    ensures Gather(num, a, query, mode) == Gather(num, b, query, mode)
  {
    MapPermuted(DocumentOf, a, b);
    Bm25.RankPermuted(num, Map(DocumentOf, a), Map(DocumentOf, b), Tokenize(query));
    var f := SimilarTo(num, query);
    MapPermuted(f, a, b);
    PermutedFilter(PassesGate, Map(f, a), Map(f, b));
    Bm25.BestFirstIsPreorder();
    SortPermuted(Bm25.BestFirst, Filter(PassesGate, Map(f, a)), Filter(PassesGate, Map(f, b)));
  }

  lemma {:induction false} CandidatesPermuted(a: seq<Record>, b: seq<Record>, ev: Evidence, ids: seq<string>)
    requires Permuted(a, b) && NoDup(Ids(a))
    ensures Candidates(a, ev, ids) == Candidates(b, ev, ids)
  {
    if ids != [] {
      CandidatesPermuted(a, b, ev, ids[..|ids| - 1]);
      CandidatePermuted(a, b, ev, ids[|ids| - 1]);
    }
  }

  lemma CandidatePermuted(a: seq<Record>, b: seq<Record>, ev: Evidence, id: string)
    requires Permuted(a, b) && NoDup(Ids(a))
    ensures Candidate(a, ev, id) == Candidate(b, ev, id)
  {
    LastWithPermuted(a, b, id);
    ByAgePermuted(a, b);
  }

  // In every mode, permuting candidates with distinct ids never changes the output sequence.
  lemma RetrievalPermuted(num: Numerics, a: seq<Record>, b: seq<Record>, query: string, mode: Mode)
    requires Permuted(a, b) && NoDup(Ids(a))
    ensures RankCandidates(num, a, query, mode) == RankCandidates(num, b, query, mode)
  {
    if mode.Classic? || Blank(query) {
      RankPermuted(num, DEFAULT_WEIGHTS, a, b, query);
    } else {
      var ua, ub := Filter(HasId, a), Filter(HasId, b);
      PermutedFilter(HasId, a, b);
      KeepsDistinct(IdOf, HasId, a);
      GatherPermuted(num, ua, ub, query, mode);
      var ev := Gather(num, ua, query, mode);
      CandidatesPermuted(ua, ub, ev, Fusion.RankingIds(ev.relevance));
    }
  }

  // ----- Scores by id -----

  ghost predicate Distinct(scored: seq<Bm25.Scored>) {
    NoDup(Map(Fusion.IdOf, scored))
  }

  lemma DistinctSorted(scored: seq<Bm25.Scored>)
    requires Distinct(scored)
    ensures Distinct(Sort(Bm25.BestFirst, scored))
  {
    SortPermutes(Bm25.BestFirst, scored);
    MapPermuted(Fusion.IdOf, Sort(Bm25.BestFirst, scored), scored);
    NoDupPermuted(Map(Fusion.IdOf, scored), Map(Fusion.IdOf, Sort(Bm25.BestFirst, scored)));
  }

  lemma {:induction false} ScoreInList(scored: seq<Bm25.Scored>, id: string)
    requires Distinct(scored)
    ensures forall s :: s in scored && s.id == id ==> ScoreIn(scored, id) == s.score
    ensures (forall s :: s in scored ==> s.id != id) ==> ScoreIn(scored, id) == 0.0
  {
    if scored != [] {
      var n := |scored| - 1;
      var ids := Map(Fusion.IdOf, scored);
      assert ids[..n] == Map(Fusion.IdOf, scored[..n]);
      NoDupPrefix(ids);
      ScoreInList(scored[..n], id);
      forall s | s in scored && s.id == id ensures ScoreIn(scored, id) == s.score {
        var i :| 0 <= i < |scored| && scored[i] == s;
        if i < n {
          assert ids[..n][i] == s.id;
          assert scored[..n][i] == s;
        }
      }
    }
  }

  lemma RankingIdsDistinct(scored: seq<Bm25.Scored>)
    requires Distinct(scored)
    ensures NoDup(Fusion.RankingIds(scored))
  {
    DistinctSorted(scored);
    KeepsDistinct(Fusion.IdOf, Bm25.Positive, Sort(Bm25.BestFirst, scored));
  }

  lemma RankingsDistinct(num: Numerics, ms: seq<Record>, query: string)
    requires NoDup(Ids(ms))
    ensures Distinct(LexicalRanking(num, ms, query)) && Distinct(VectorRanking(num, ms, query))
  {
    var docs := Map(DocumentOf, ms);
    var all := Map(Bm25.Scoring(num, Bm25.Collect(docs), Tokenize(query)), docs);
    assert Map(Fusion.IdOf, all) == Ids(ms);
    KeepsDistinct(Fusion.IdOf, Bm25.Positive, all);
    DistinctSorted(Filter(Bm25.Positive, all));
    var near := Map(SimilarTo(num, query), ms);
    assert Map(Fusion.IdOf, near) == Ids(ms);
    KeepsDistinct(Fusion.IdOf, PassesGate, near);
    DistinctSorted(Filter(PassesGate, near));
  }

  // ----- Evidence -----

  // A query token occurs in the title or the body.
  ghost predicate Shares(query: string, m: Record) {
    exists t :: t in Tokenize(query) && (t in Tokenize(m.title) || t in Tokenize(m.body))
  }

  ghost predicate Near(num: Numerics, query: string, m: Record) {
    Similarity(num, query, m) > VECTOR_GATE
  }

  lemma DocumentTokens(m: Record, t: string)
    ensures t in DocumentOf(m).tokens <==> t in Tokenize(m.title) || t in Tokenize(m.body)
  {
  }

  lemma LexicalEvidence(num: Numerics, ms: seq<Record>, query: string, m: Record)
    requires Lawful(num) && NoDup(Ids(ms)) && m in ms
    ensures ScoreIn(LexicalRanking(num, ms, query), m.id) > 0.0 <==> Shares(query, m)
    ensures m.id in Fusion.RankingIds(LexicalRanking(num, ms, query)) <==> Shares(query, m)
  {
    var ranking := LexicalRanking(num, ms, query);
    var docs := Map(DocumentOf, ms);
    var s := Bm25.Scoring(num, Bm25.Collect(docs), Tokenize(query))(DocumentOf(m));
    Bm25.PositiveIffShared(num, docs, Tokenize(query), DocumentOf(m));
    forall t ensures t in DocumentOf(m).tokens <==> t in Tokenize(m.title) || t in Tokenize(m.body) {
      DocumentTokens(m, t);
    }
    RankingsDistinct(num, ms, query);
    ScoreInList(ranking, m.id);
    RankingIdsMembers(ranking, m.id);
    forall x ensures x in ranking && x.id == m.id <==> x == s && s.score > 0.0 {
      LexicalMembers(num, ms, query, x);
      if x in ranking && x.id == m.id {
        var m' :| m' in ms && x == Bm25.Scoring(num, Bm25.Collect(docs), Tokenize(query))(DocumentOf(m'));
        DistinctIds(ms, m, m');
      }
    }
  }

  lemma VectorEvidence(num: Numerics, ms: seq<Record>, query: string, m: Record)
    requires NoDup(Ids(ms)) && m in ms
    ensures ScoreIn(VectorRanking(num, ms, query), m.id) > 0.0 <==> Near(num, query, m)
    ensures m.id in Fusion.RankingIds(VectorRanking(num, ms, query)) <==> Near(num, query, m)
  {
    var ranking := VectorRanking(num, ms, query);
    var s := SimilarTo(num, query)(m);
    RankingsDistinct(num, ms, query);
    ScoreInList(ranking, m.id);
    RankingIdsMembers(ranking, m.id);
    forall x ensures x in ranking && x.id == m.id <==> x == s && s.score > VECTOR_GATE {
      VectorMembers(num, ms, query, x);
      if x in ranking && x.id == m.id {
        var m' :| m' in ms && x == SimilarTo(num, query)(m');
        DistinctIds(ms, m, m');
      }
    }
  }

  // ----- From ids to results -----

  ghost predicate Supported(ev: Evidence, id: string) {
    ScoreIn(ev.bm25, id) > 0.0 || ScoreIn(ev.vector, id) > 0.0
  }

  lemma {:induction false} CandidatesMembers(ms: seq<Record>, ev: Evidence, ids: seq<string>)
    requires NoDup(Ids(ms)) && NoDup(ids)
    ensures forall k :: k in Candidates(ms, ev, ids) <==>
                          && k.memory in ms && k.memory.id in ids && Supported(ev, k.memory.id)
                          && k.score == TotalScore(ms, ev, k.memory)
    ensures NoDup(Map(MemoryOf, Candidates(ms, ev, ids)))
  {
    if ids != [] {
      var n := |ids| - 1;
      var id := ids[n];
      NoDupPrefix(ids);
      CandidatesMembers(ms, ev, ids[..n]);
      var before, last := Candidates(ms, ev, ids[..n]), Candidate(ms, ev, id);
      assert ids == ids[..n] + [id];
      forall k ensures k in last <==> k.memory in ms && k.memory.id == id && Supported(ev, id)
                                      && k.score == TotalScore(ms, ev, k.memory)
      {
        if k.memory in ms && k.memory.id == id {
          IdMembers(ms, k.memory);
          DistinctIds(ms, k.memory, LastWith(ms, id).value);
        }
      }
      if last != [] {
        assert last[0] in last;
        assert Map(MemoryOf, before + last) == Map(MemoryOf, before) + [last[0].memory];
        NoDupAppend(Map(MemoryOf, before), last[0].memory);
      } else {
        assert before + last == before;
      }
    }
  }

  // Results are the supported candidates with a ranked id, each exactly once.
  lemma ResultMembers(ms: seq<Record>, ev: Evidence)
    requires NoDup(Ids(ms)) && Distinct(ev.relevance)
    ensures var r := RankByEvidence(ms, ev);
            && NoDup(r)
            && forall m :: m in r <==> m in ms && m.id in Fusion.RankingIds(ev.relevance) && Supported(ev, m.id)
  {
    var ids := Fusion.RankingIds(ev.relevance);
    RankingIdsDistinct(ev.relevance);
    CandidatesMembers(ms, ev, ids);
    var keyed := Candidates(ms, ev, ids);
    var sorted := Sort(BestFirst, keyed);
    SortPermutes(BestFirst, keyed);
    SortMembers(BestFirst, keyed);
    MapPermuted(MemoryOf, keyed, sorted);
    NoDupPermuted(Map(MemoryOf, keyed), Map(MemoryOf, sorted));
    forall m ensures m in Map(MemoryOf, sorted) <==> m in ms && m.id in ids && Supported(ev, m.id) {
      KeyedMemory(sorted, m);
      var k := Keyed(TotalScore(ms, ev, m), m);
      assert k in sorted <==> k in keyed;
    }
  }

  lemma KeyedMemory(keyed: seq<Keyed>, m: Record)
    ensures m in Map(MemoryOf, keyed) <==> exists k :: k in keyed && k.memory == m
  {
    if m in Map(MemoryOf, keyed) {
      var i :| 0 <= i < |keyed| && Map(MemoryOf, keyed)[i] == m;
      assert keyed[i] in keyed;
    }
    if k :| k in keyed && k.memory == m {
      var i :| 0 <= i < |keyed| && keyed[i] == k;
      assert Map(MemoryOf, keyed)[i] == m;
    }
  }

  lemma {:induction false} TotalPositive(rankings: seq<seq<string>>, weights: seq<real>, k: nat, id: string)
    requires |rankings| == |weights|
    requires forall i :: 0 <= i < |rankings| ==> NoDup(rankings[i]) && weights[i] > 0.0
    ensures Fusion.Total(rankings, weights, k, id) >= 0.0
    ensures Fusion.Ranked(rankings, id) ==> Fusion.Total(rankings, weights, k, id) > 0.0
  {
    if rankings != [] {
      var n := |rankings| - 1;
      TotalPositive(rankings[..n], weights[..n], k, id);
      Fusion.RankSumAt(rankings[n], weights[n], k, id);
      if id in rankings[n] {
        var p :| 0 <= p < |rankings[n]| && rankings[n][p] == id;
        Fusion.ShareOrder(weights[n], k, p, p + 1);
      }
      if Fusion.Ranked(rankings, id) {
        var i :| 0 <= i < |rankings| && id in rankings[i];
        assert i == n || id in rankings[..n][i];
      }
    }
  }

  lemma ItemsOf(s: Fusion.Scores)
    requires Fusion.Consistent(s)
    ensures Distinct(Fusion.Items(s))
    ensures forall id :: ScoreIn(Fusion.Items(s), id) == Fusion.ScoreOf(s, id)
    ensures forall id :: id in Fusion.RankingIds(Fusion.Items(s)) <==> id in s.values && Fusion.ScoreOf(s, id) > 0.0
  {
    var items := Fusion.Items(s);
    assert Map(Fusion.IdOf, items) == s.keys;
    forall x ensures x in items <==> x.id in s.keys && x.score == Fusion.ScoreOf(s, x.id) {
      if x in items {
        var i :| 0 <= i < |items| && items[i] == x;
        assert s.keys[i] in s.keys;
      }
      if x.id in s.keys {
        var i :| 0 <= i < |s.keys| && s.keys[i] == x.id;
        assert items[i] in items && items[i].id == x.id;
      }
    }
    forall id ensures ScoreIn(items, id) == Fusion.ScoreOf(s, id) {
      ScoreInList(items, id);
      if id in s.keys {
        assert Bm25.Scored(id, Fusion.ScoreOf(s, id)) in items;
      }
    }
    forall id ensures id in Fusion.RankingIds(items) <==> id in s.values && Fusion.ScoreOf(s, id) > 0.0 {
      RankingIdsMembers(items, id);
      if id in s.values && Fusion.ScoreOf(s, id) > 0.0 {
        assert Bm25.Scored(id, Fusion.ScoreOf(s, id)) in items;
      }
    }
  }

  function HybridRankings(num: Numerics, ms: seq<Record>, query: string): seq<seq<string>> {
    [Fusion.RankingIds(LexicalRanking(num, ms, query)), Fusion.RankingIds(VectorRanking(num, ms, query))]
  }

  lemma HybridPositive(rankings: seq<seq<string>>)
    requires |rankings| == 2 && NoDup(rankings[0]) && NoDup(rankings[1])
    ensures forall id :: Fusion.Total(rankings, Weights2(), Fusion.RRF_K, id) >= 0.0
    ensures forall id :: Fusion.Ranked(rankings, id) ==> Fusion.Total(rankings, Weights2(), Fusion.RRF_K, id) > 0.0
  {
    forall id
      ensures Fusion.Total(rankings, Weights2(), Fusion.RRF_K, id) >= 0.0
      ensures Fusion.Ranked(rankings, id) ==> Fusion.Total(rankings, Weights2(), Fusion.RRF_K, id) > 0.0
    {
      TotalPositive(rankings, Weights2(), Fusion.RRF_K, id);
    }
  }

  lemma HybridRankingsDistinct(num: Numerics, ms: seq<Record>, query: string)
    requires NoDup(Ids(ms))
    ensures var rankings := HybridRankings(num, ms, query);
            |rankings| == 2 && NoDup(rankings[0]) && NoDup(rankings[1])
  {
    RankingsDistinct(num, ms, query);
    RankingIdsDistinct(LexicalRanking(num, ms, query));
    RankingIdsDistinct(VectorRanking(num, ms, query));
  }

  // What fusion makes of the two rankings of distinct candidates.
  lemma FusedFacts(num: Numerics, ms: seq<Record>, query: string)
    requires NoDup(Ids(ms))
    ensures var items := Gather(num, ms, query, Hybrid).relevance;
            var rankings := HybridRankings(num, ms, query);
            && Distinct(items)
            && (forall id :: ScoreIn(items, id) == Fusion.Total(rankings, Weights2(), Fusion.RRF_K, id))
            && (forall id :: id in Fusion.RankingIds(items) <==> Fusion.Ranked(rankings, id))
  {
    var rankings := HybridRankings(num, ms, query);
    HybridRankingsDistinct(num, ms, query);
    HybridPositive(rankings);
    Fusion.FuseIsFormula(rankings, Weights2(), Fusion.RRF_K);
    ItemsOf(Fusion.Fuse(rankings, Weights2(), Fusion.RRF_K));
  }

  // ----- Exact results -----

  // Lexical mode returns each candidate that shares a title or body token with the query, exactly once.
  lemma LexicalExact(num: Numerics, ms: seq<Record>, query: string)
    requires Lawful(num) && NoDup(Ids(ms)) && !Blank(query)
    ensures var r := RankCandidates(num, ms, query, LexicalMode);
            NoDup(r) && forall m :: m in r <==> m in ms && HasId(m) && Shares(query, m)
  {
    var usable := Filter(HasId, ms);
    KeepsDistinct(IdOf, HasId, ms);
    var ev := Gather(num, usable, query, LexicalMode);
    RankingsDistinct(num, usable, query);
    ResultMembers(usable, ev);
    forall m | m in usable { LexicalEvidence(num, usable, query, m); }
  }

  // Vector mode returns each candidate whose cosine passes the gate, exactly once.
  lemma VectorExact(num: Numerics, ms: seq<Record>, query: string)
    requires NoDup(Ids(ms)) && !Blank(query)
    ensures var r := RankCandidates(num, ms, query, VectorMode);
            NoDup(r) && forall m :: m in r <==> m in ms && HasId(m) && Near(num, query, m)
  {
    var usable := Filter(HasId, ms);
    KeepsDistinct(IdOf, HasId, ms);
    var ev := Gather(num, usable, query, VectorMode);
    RankingsDistinct(num, usable, query);
    ResultMembers(usable, ev);
    forall m | m in usable { VectorEvidence(num, usable, query, m); }
  }

  lemma HybridEvidence(num: Numerics, ms: seq<Record>, query: string, m: Record)
    requires Lawful(num) && NoDup(Ids(ms)) && m in ms
    ensures Fusion.Ranked(HybridRankings(num, ms, query), m.id) <==> Shares(query, m) || Near(num, query, m)
    ensures Supported(Gather(num, ms, query, Hybrid), m.id) <==> Shares(query, m) || Near(num, query, m)
  {
    LexicalEvidence(num, ms, query, m);
    VectorEvidence(num, ms, query, m);
    RankedInPair(Fusion.RankingIds(LexicalRanking(num, ms, query)), Fusion.RankingIds(VectorRanking(num, ms, query)), m.id);
  }

  lemma RankedInPair(first: seq<string>, second: seq<string>, id: string)
    ensures Fusion.Ranked([first, second], id) <==> id in first || id in second
  {
    assert [first, second][0] == first && [first, second][1] == second;
  }

  // Hybrid mode returns exactly the candidates that either of the two would return, each once.
  lemma HybridExact(num: Numerics, ms: seq<Record>, query: string)
    requires Lawful(num) && NoDup(Ids(ms)) && !Blank(query)
    ensures var r := RankCandidates(num, ms, query, Hybrid);
            NoDup(r) && forall m :: m in r <==> m in ms && HasId(m) && (Shares(query, m) || Near(num, query, m))
  {
    var usable := Filter(HasId, ms);
    KeepsDistinct(IdOf, HasId, ms);
    FusedFacts(num, usable, query);
    ResultMembers(usable, Gather(num, usable, query, Hybrid));
    forall m | m in usable { HybridEvidence(num, usable, query, m); }
  }

  // ----- Dominance -----

  // x stands before y in s.
  ghost predicate Before<T>(s: seq<T>, x: T, y: T) {
    exists i, j :: 0 <= i < j < |s| && s[i] == x && s[j] == y
  }

  lemma StrictlyBetterFirst(keyed: seq<Keyed>, a: Keyed, b: Keyed)
    requires a in keyed && b in keyed && !BestFirst(b, a)
    ensures Before(Map(MemoryOf, Sort(BestFirst, keyed)), a.memory, b.memory)
  {
    OrdersArePreorders();
    var sorted := Sort(BestFirst, keyed);
    SortSorts(BestFirst, keyed);
    SortMembers(BestFirst, keyed);
    var i :| 0 <= i < |sorted| && sorted[i] == a;
    var j :| 0 <= j < |sorted| && sorted[j] == b;
    assert BestFirst(b, b);
    assert i != j && !(j < i);
    var r := Map(MemoryOf, sorted);
    assert r[i] == a.memory && r[j] == b.memory;
  }

  // A strict gain in one of the components of the score that has a positive weight.
  predicate Gains(num: Numerics, w: Weights, st: Ranking.Stats, terms: seq<string>, a: Record, b: Record) {
    || (w.confidence > 0.0 && a.confidence > b.confidence)
    || (w.status > 0.0 && a.status == "active" && b.status != "active")
    || (w.recency > 0.0 && RecencyFraction(st, a) > RecencyFraction(st, b))
    || (terms != [] && w.lexical > 0.0 && Lexical(num, st, a, terms) > Lexical(num, st, b, terms))
    || (terms != [] && w.tag > 0.0 && TagOverlap(a, terms) > TagOverlap(b, terms))
  }

  // In classic mode, of two candidates the one that is at least as good in confidence, status, recency,
  // lexical score and tag overlap, and better in one that counts, comes first, whatever the weights.
  lemma ClassicDominance(num: Numerics, w: Weights, ms: seq<Record>, query: string, a: Record, b: Record)
    requires w.confidence >= 0.0 && w.status >= 0.0 && w.recency >= 0.0 && w.lexical >= 0.0 && w.tag >= 0.0
    requires a in ms && b in ms && a.confidence >= b.confidence && (b.status == "active" ==> a.status == "active")
    requires RecencyFraction(Ranking.Collect(ms), a) >= RecencyFraction(Ranking.Collect(ms), b)
    requires Lexical(num, Ranking.Collect(ms), a, Tokenize(query)) >= Lexical(num, Ranking.Collect(ms), b, Tokenize(query))
    requires TagOverlap(a, Tokenize(query)) >= TagOverlap(b, Tokenize(query))
    requires Gains(num, w, Ranking.Collect(ms), Tokenize(query), a, b)
    ensures Before(Rank(num, w, ms, query), a, b)
  {
    var st, terms := Ranking.Collect(ms), Tokenize(query);
    StandingRises(w, st, a, b);
    RelevanceRises(w, terms, Lexical(num, st, a, terms), Lexical(num, st, b, terms),
                   TagOverlap(a, terms), TagOverlap(b, terms));
    var key := KeyBy(num, w, st, terms);
    KeyedMember(key, ms, a);
    KeyedMember(key, ms, b);
    StrictlyBetterFirst(Map(key, ms), key(a), key(b));
  }

  lemma KeyedMember(key: Record -> Keyed, ms: seq<Record>, m: Record)
    requires m in ms
    ensures key(m) in Map(key, ms)
  {
    var i :| 0 <= i < |ms| && ms[i] == m;
    assert Map(key, ms)[i] == key(m);
  }

  lemma StandingRises(w: Weights, st: Ranking.Stats, a: Record, b: Record)
    requires w.confidence >= 0.0 && w.status >= 0.0 && w.recency >= 0.0
    requires a.confidence >= b.confidence && (b.status == "active" ==> a.status == "active")
    requires RecencyFraction(st, a) >= RecencyFraction(st, b)
    ensures Standing(w, st, a) >= Standing(w, st, b)
    ensures || (w.confidence > 0.0 && a.confidence > b.confidence)
            || (w.status > 0.0 && a.status == "active" && b.status != "active")
            || (w.recency > 0.0 && RecencyFraction(st, a) > RecencyFraction(st, b))
            ==> Standing(w, st, a) > Standing(w, st, b)
  {
    var sa, sb := if a.status == "active" then 1.0 else 0.0, if b.status == "active" then 1.0 else 0.0;
    Reals.BlendRises(w.confidence, b.confidence, a.confidence, w.status, sb, sa,
                     w.recency, RecencyFraction(st, b), RecencyFraction(st, a));
  }

  lemma RelevanceRises(w: Weights, terms: seq<string>, la: real, lb: real, ta: int, tb: int)
    requires w.lexical >= 0.0 && w.tag >= 0.0 && la >= lb && ta >= tb
    ensures Ranking.Relevance(w, terms, la, ta) >= Ranking.Relevance(w, terms, lb, tb)
    ensures terms != [] && ((w.lexical > 0.0 && la > lb) || (w.tag > 0.0 && ta > tb)) ==>
              Ranking.Relevance(w, terms, la, ta) > Ranking.Relevance(w, terms, lb, tb)
  {
    Reals.MixRises(w.lexical, lb, la, w.tag, tb as real, ta as real);
  }

  lemma {:induction false} LastIndexAt(ids: seq<string>, i: nat)
    requires NoDup(ids) && i < |ids|
    ensures LastIndex(ids, ids[i]) == i
  {
    if i < |ids| - 1 {
      LastIndexAt(ids[..|ids| - 1], i);
    }
  }

  // The more recent of two candidates has the larger recency, in every mode.
  lemma RecencyOrder(ms: seq<Record>, a: Record, b: Record)
    requires NoDup(Ids(ms)) && a in ms && b in ms && HasId(a) && HasId(b) && !Earlier(a, b)
    ensures Recency(ms, a) > Recency(ms, b)
    ensures RecencyFraction(Ranking.Collect(ms), a) > RecencyFraction(Ranking.Collect(ms), b)
  {
    OrdersArePreorders();
    var kept := Filter(HasId, ms);
    var sorted := Sort(Earlier, kept);
    SortSorts(Earlier, kept);
    SortMembers(Earlier, kept);
    SortPermutes(Earlier, kept);
    KeepsDistinct(IdOf, HasId, ms);
    MapPermuted(IdOf, kept, sorted);
    NoDupPermuted(Ids(kept), Ids(sorted));
    var i :| 0 <= i < |sorted| && sorted[i] == a;
    var j :| 0 <= j < |sorted| && sorted[j] == b;
    assert Earlier(b, b) && i != j && !(i < j);
    LastIndexAt(Ids(sorted), i);
    LastIndexAt(Ids(sorted), j);
    FractionRises(j, i, |sorted| - 1);
    NoDupTwo(ms, a, b);
    FractionRises(j, i, |ms| - 1);
  }

  lemma NoDupTwo(ms: seq<Record>, a: Record, b: Record)
    requires a in ms && b in ms && a != b
    ensures |ms| > 1
  {
  }

  lemma FractionRises(x: nat, y: nat, n: nat)
    requires x < y && n > 0
    ensures x as real / n as real < y as real / n as real
  {
  }

  // In hybrid mode, a result that is ahead in both rankings, no worse in status and confidence, and
  // more recent, comes first.
  lemma HybridDominance(num: Numerics, ms: seq<Record>, query: string, a: Record, b: Record)
    requires Lawful(num) && NoDup(Ids(ms)) && !Blank(query) && a.id != b.id
    requires var r := RankCandidates(num, ms, query, Hybrid);
             a in r && b in r
    requires var rankings := HybridRankings(num, Filter(HasId, ms), query);
             Fusion.Ahead(rankings[0], a.id, b.id) && Fusion.Ahead(rankings[1], a.id, b.id)
    requires (b.status == "active" ==> a.status == "active") && a.confidence >= b.confidence && !Earlier(a, b)
    ensures Before(RankCandidates(num, ms, query, Hybrid), a, b)
  {
    HybridExact(num, ms, query);
    var usable := Filter(HasId, ms);
    KeepsDistinct(IdOf, HasId, ms);
    HybridOrder(num, usable, query, a, b);
  }

  lemma HybridTotals(num: Numerics, ms: seq<Record>, query: string, a: Record, b: Record)
    requires NoDup(Ids(ms)) && a.id != b.id
    requires Fusion.Ranked(HybridRankings(num, ms, query), a.id)
    requires var rankings := HybridRankings(num, ms, query);
             Fusion.Ahead(rankings[0], a.id, b.id) && Fusion.Ahead(rankings[1], a.id, b.id)
    ensures var items := Gather(num, ms, query, Hybrid).relevance;
            ScoreIn(items, a.id) > ScoreIn(items, b.id)
  {
    FusedFacts(num, ms, query);
    DominantTotal(num, ms, query, a.id, b.id);
  }

  lemma DominantTotal(num: Numerics, ms: seq<Record>, query: string, a: string, b: string)
    requires NoDup(Ids(ms)) && a != b && Fusion.Ranked(HybridRankings(num, ms, query), a)
    requires var rankings := HybridRankings(num, ms, query);
             Fusion.Ahead(rankings[0], a, b) && Fusion.Ahead(rankings[1], a, b)
    ensures var rankings := HybridRankings(num, ms, query);
            Fusion.Total(rankings, Weights2(), Fusion.RRF_K, a) > Fusion.Total(rankings, Weights2(), Fusion.RRF_K, b)
  {
    HybridRankingsDistinct(num, ms, query);
    Fusion.FusionDominance(HybridRankings(num, ms, query), Weights2(), Fusion.RRF_K, a, b);
  }

  lemma HybridOrder(num: Numerics, ms: seq<Record>, query: string, a: Record, b: Record)
    requires Lawful(num) && NoDup(Ids(ms)) && a.id != b.id
    requires a in ms && b in ms && HasId(a) && HasId(b)
    requires (Shares(query, a) || Near(num, query, a)) && (Shares(query, b) || Near(num, query, b))
    requires var rankings := HybridRankings(num, ms, query);
             Fusion.Ahead(rankings[0], a.id, b.id) && Fusion.Ahead(rankings[1], a.id, b.id)
    requires (b.status == "active" ==> a.status == "active") && a.confidence >= b.confidence && !Earlier(a, b)
    ensures Before(RankByEvidence(ms, Gather(num, ms, query, Hybrid)), a, b)
  {
    HybridScores(num, ms, query, a, b);
    HybridEvidence(num, ms, query, a);
    HybridEvidence(num, ms, query, b);
    FusedFacts(num, ms, query);
    EvidenceOrder(ms, Gather(num, ms, query, Hybrid), a, b);
  }

  // Of two results, the one with the larger total comes first.
  lemma EvidenceOrder(ms: seq<Record>, ev: Evidence, a: Record, b: Record)
    requires NoDup(Ids(ms)) && Distinct(ev.relevance) && a in ms && b in ms
    requires a.id in Fusion.RankingIds(ev.relevance) && Supported(ev, a.id)
    requires b.id in Fusion.RankingIds(ev.relevance) && Supported(ev, b.id)
    requires TotalScore(ms, ev, a) > TotalScore(ms, ev, b)
    ensures Before(RankByEvidence(ms, ev), a, b)
  {
    var ids := Fusion.RankingIds(ev.relevance);
    RankingIdsDistinct(ev.relevance);
    CandidatesMembers(ms, ev, ids);
    StrictlyBetterFirst(Candidates(ms, ev, ids), Keyed(TotalScore(ms, ev, a), a), Keyed(TotalScore(ms, ev, b), b));
  }

  lemma HybridScores(num: Numerics, ms: seq<Record>, query: string, a: Record, b: Record)
    requires Lawful(num) && NoDup(Ids(ms)) && a.id != b.id
    requires a in ms && b in ms && HasId(a) && HasId(b) && (Shares(query, a) || Near(num, query, a))
    requires var rankings := HybridRankings(num, ms, query);
             Fusion.Ahead(rankings[0], a.id, b.id) && Fusion.Ahead(rankings[1], a.id, b.id)
    requires (b.status == "active" ==> a.status == "active") && a.confidence >= b.confidence && !Earlier(a, b)
    ensures var ev := Gather(num, ms, query, Hybrid);
            TotalScore(ms, ev, a) > TotalScore(ms, ev, b)
  {
    HybridEvidence(num, ms, query, a);
    HybridTotals(num, ms, query, a, b);
    RecencyOrder(ms, a, b);
    TotalsOrder(ms, Gather(num, ms, query, Hybrid), a, b);
  }

  lemma TotalsOrder(ms: seq<Record>, ev: Evidence, a: Record, b: Record)
    requires ScoreIn(ev.relevance, a.id) > ScoreIn(ev.relevance, b.id)
    requires (b.status == "active" ==> a.status == "active") && a.confidence >= b.confidence
    requires Recency(ms, a) > Recency(ms, b)
    ensures TotalScore(ms, ev, a) > TotalScore(ms, ev, b)
  {
  }
}
