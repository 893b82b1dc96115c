/** Ranking an authorised candidate set in any mode: what is returned, in which order, and why. */
module Retrieval {
  import opened Seqs
  import opened Sorting
  import opened Text
  import opened Models
  import opened StoreModel
  import opened Corpus
  import opened Ranking
  import Bm25
  import Vector
  import Fusion

  datatype Mode = Classic | LexicalMode | VectorMode | Hybrid
  datatype Parsed = Known(mode: Mode) | UnknownMode

  const BM25_FUSION_WEIGHT := 1.0
  const VECTOR_FUSION_WEIGHT := 0.8
  const VECTOR_GATE := 0.05

  function NormalizeMode(mode: Option<string>): Parsed {
    match Lower(Strip(if mode == None || mode == Some("") then "classic" else mode.value))
    case "classic" => Known(Classic)
    case "lexical" => Known(LexicalMode)
    case "vector" => Known(VectorMode)
    case "hybrid" => Known(Hybrid)
    case _ => UnknownMode
  }

  function DocumentOf(m: Record): Bm25.Document {
    Bm25.BuildDocument(m.id, m.body, m.title)
  }

  function LexicalRanking(num: Numerics, ms: seq<Record>, query: string): seq<Bm25.Scored> {
    Bm25.Rank(num, Map(DocumentOf, ms), Tokenize(query))
  }

  function Similarity(num: Numerics, query: string, m: Record): real {
    Vector.Cosine(num, Vector.Embedding(num, query), Vector.Embedding(num, m.title + " " + m.body))
  }

  function SimilarTo(num: Numerics, query: string): Record -> Bm25.Scored {
    (m: Record) => Bm25.Scored(m.id, Similarity(num, query, m))
  }

  predicate PassesGate(s: Bm25.Scored) {
    s.score > VECTOR_GATE
  }

  function VectorRanking(num: Numerics, ms: seq<Record>, query: string): seq<Bm25.Scored> {
    Sort(Bm25.BestFirst, Filter(PassesGate, Map(SimilarTo(num, query), ms)))
  }

  // dict(scored): the last score of an id.
  function ScoreIn(scored: seq<Bm25.Scored>, id: string): real {
    if scored == [] then 0.0
    else if scored[|scored| - 1].id == id then scored[|scored| - 1].score
    else ScoreIn(scored[..|scored| - 1], id)
  }

  function Weights2(): seq<real> {
    [BM25_FUSION_WEIGHT, VECTOR_FUSION_WEIGHT]
  }

  // The fused scores of the hybrid mode.
  function FusedScores(bm25: seq<Bm25.Scored>, vector: seq<Bm25.Scored>): Fusion.Scores {
    Fusion.Fuse([Fusion.RankingIds(bm25), Fusion.RankingIds(vector)], Weights2(), Fusion.RRF_K)
  }

  // The relevance scores a mode ranks by.
  function Relevance(mode: Mode, bm25: seq<Bm25.Scored>, vector: seq<Bm25.Scored>): seq<Bm25.Scored> {
    match mode
    case LexicalMode => bm25
    case VectorMode => vector
    case _ => Fusion.Items(FusedScores(bm25, vector))
  }

  // Position in age order over the last position; 1 for a single candidate.
  function Recency(ms: seq<Record>, m: Record): real {
    var ages := ByAge(ms);
    if |ages| <= 1 then 1.0 else LastIndex(ages, m.id) as real / (|ages| - 1) as real
  }

  function Boost(m: Record, recency: real): real {
    (if m.status == "active" then 0.20 else 0.0) + 0.08 * m.confidence + 0.12 * recency
  }

  // The lists a ranking step works with.
  datatype Evidence = Evidence(
    bm25: seq<Bm25.Scored>, vector: seq<Bm25.Scored>, relevance: seq<Bm25.Scored>)

  function Gather(num: Numerics, ms: seq<Record>, query: string, mode: Mode): Evidence {
    var bm25 := if mode.LexicalMode? || mode.Hybrid? then LexicalRanking(num, ms, query) else [];
    var vector := if mode.VectorMode? || mode.Hybrid? then VectorRanking(num, ms, query) else [];
    Evidence(bm25, vector, Relevance(mode, bm25, vector))
  }

  function TotalScore(ms: seq<Record>, ev: Evidence, m: Record): real {
    ScoreIn(ev.relevance, m.id) + Boost(m, Recency(ms, m))
  }

  // The dictionary from ids to memories: of several with one id it keeps the last.
  function LastWith(ms: seq<Record>, id: string): (m: Option<Record>)
    ensures m.Some? ==> m.value in ms && m.value.id == id
    ensures m.Some? <==> id in Ids(ms)
  {
    if ms == [] then None
    else
      var init, last := ms[..|ms| - 1], ms[|ms| - 1];
      assert Ids(ms) == Ids(init) + [last.id];
      if last.id == id then Some(last) else LastWith(init, id)
  }

  // The boosted candidate of an id, or none for an unknown id or one without evidence.
  function Candidate(ms: seq<Record>, ev: Evidence, id: string): seq<Keyed> {
    var m := LastWith(ms, id);
    if m == None || (ScoreIn(ev.bm25, id) <= 0.0 && ScoreIn(ev.vector, id) <= 0.0) then []
    else [Keyed(TotalScore(ms, ev, m.value), m.value)]
  }

  function Candidates(ms: seq<Record>, ev: Evidence, ids: seq<string>): seq<Keyed> {
    if ids == [] then []
    else Candidates(ms, ev, ids[..|ids| - 1]) + Candidate(ms, ev, ids[|ids| - 1])
  }

  function RankByEvidence(ms: seq<Record>, ev: Evidence): seq<Record> {
    Map(MemoryOf, Sort(BestFirst, Candidates(ms, ev, Fusion.RankingIds(ev.relevance))))
  }

  function RankCandidates(num: Numerics, ms: seq<Record>, query: string, mode: Mode): seq<Record> {
    if mode.Classic? || Blank(query) then Rank(num, DEFAULT_WEIGHTS, ms, query)
    else
      var usable := Filter(HasId, ms);
      RankByEvidence(usable, Gather(num, usable, query, mode))
  }

  lemma NextCandidate(ms: seq<Record>, ev: Evidence, ids: seq<string>, i: nat)
    requires i < |ids|
    ensures Candidates(ms, ev, ids[..i + 1]) == Candidates(ms, ev, ids[..i]) + Candidate(ms, ev, ids[i])
  {
    assert ids[..i + 1][..i] == ids[..i];
  }

  method ById(ms: seq<Record>) returns (byId: map<string, Record>)
    ensures forall id :: LastWith(ms, id) == if id in byId then Some(byId[id]) else None
  {
    byId := map[];
    for i := 0 to |ms|
      invariant forall id :: LastWith(ms[..i], id) == if id in byId then Some(byId[id]) else None
    {
      assert ms[..i + 1][..i] == ms[..i];
      byId := byId[ms[i].id := ms[i]];
    }
    assert ms[..|ms|] == ms;
  }

  // The candidate loop of rank_candidates.
  method CollectCandidates(ms: seq<Record>, ev: Evidence) returns (ranked: seq<Record>)
    ensures ranked == RankByEvidence(ms, ev)
  {
    var ids := Fusion.RankingIds(ev.relevance);
    var byId := ById(ms);
    var keyed := [];
    for i := 0 to |ids|
      invariant keyed == Candidates(ms, ev, ids[..i])
    {
      NextCandidate(ms, ev, ids, i);
      assert LastWith(ms, ids[i]) == if ids[i] in byId then Some(byId[ids[i]]) else None;
      if ids[i] in byId && (ScoreIn(ev.bm25, ids[i]) > 0.0 || ScoreIn(ev.vector, ids[i]) > 0.0) {
        var m := byId[ids[i]];
        keyed := keyed + [Keyed(TotalScore(ms, ev, m), m)];
      }
    }
    FullPrefix(ids, |ids|);
    ranked := Map(MemoryOf, Sort(BestFirst, keyed));
  }

  // rank_candidates in full: fusion is handed the authorised ids and never refuses.
  method RankAuthorized(num: Numerics, ms: seq<Record>, query: string, mode: Mode) returns (ranked: seq<Record>)
    ensures ranked == RankCandidates(num, ms, query, mode)
  {
    if mode.Classic? || Blank(query) {
      return Rank(num, DEFAULT_WEIGHTS, ms, query);
    }
    var usable := Filter(HasId, ms);
    var authorized := set m | m in usable :: m.id;
    var bm25, vector := [], [];
    if mode.LexicalMode? || mode.Hybrid? {
      var index := new Bm25.BM25Index(Map(DocumentOf, usable));
      bm25 := index.RankDocuments(num, Tokenize(query));
    }
    if mode.VectorMode? || mode.Hybrid? {
      vector := VectorRanking(num, usable, query);
    }
    var relevance := if mode.LexicalMode? then bm25 else vector;
    if mode.Hybrid? {
      var rankings := [Fusion.RankingIds(bm25), Fusion.RankingIds(vector)];
      RankedAreAuthorized(num, usable, query);
      var outcome := Fusion.ReciprocalRankFusion(rankings, authorized, Some(Weights2()), Fusion.RRF_K);
      assert outcome.Fused?;
      relevance := Fusion.Items(outcome.scores);
    }
    ranked := CollectCandidates(usable, Evidence(bm25, vector, relevance));
  }

  // ----- Which ids the rankings hold -----

  lemma RankingIdsMembers(scored: seq<Bm25.Scored>, id: string)
    ensures id in Fusion.RankingIds(scored) <==> exists s :: s in scored && s.id == id && s.score > 0.0
  {
    SortMembers(Bm25.BestFirst, scored);
    var kept := Filter(Bm25.Positive, Sort(Bm25.BestFirst, scored));
    var ids := Fusion.RankingIds(scored);
    if id in ids {
      var i :| 0 <= i < |ids| && ids[i] == id;
      assert kept[i] in kept;
    }
    if s :| s in scored && s.id == id && s.score > 0.0 {
      assert s in kept;
      var i :| 0 <= i < |kept| && kept[i] == s;
      assert ids[i] == id;
    }
  }

  lemma LexicalMembers(num: Numerics, ms: seq<Record>, query: string, s: Bm25.Scored)
    ensures s in LexicalRanking(num, ms, query) <==>
              s.score > 0.0 && exists m :: m in ms && s == Bm25.Scoring(num, Bm25.Collect(Map(DocumentOf, ms)), Tokenize(query))(DocumentOf(m))
  {
    var docs := Map(DocumentOf, ms);
    var f := Bm25.Scoring(num, Bm25.Collect(docs), Tokenize(query));
    SortMembers(Bm25.BestFirst, Filter(Bm25.Positive, Map(f, docs)));
    assert s in LexicalRanking(num, ms, query) <==> s in Map(f, docs) && s.score > 0.0;
    if s in Map(f, docs) {
      var i :| 0 <= i < |ms| && Map(f, docs)[i] == s;
      assert docs[i] == DocumentOf(ms[i]) && ms[i] in ms;
    }
    if m :| m in ms && s == f(DocumentOf(m)) {
      var i :| 0 <= i < |ms| && ms[i] == m;
      assert Map(f, docs)[i] == s;
    }
  }

  lemma VectorMembers(num: Numerics, ms: seq<Record>, query: string, s: Bm25.Scored)
    ensures s in VectorRanking(num, ms, query) <==>
              s.score > VECTOR_GATE && exists m :: m in ms && s == SimilarTo(num, query)(m)
  {
    var f := SimilarTo(num, query);
    SortMembers(Bm25.BestFirst, Filter(PassesGate, Map(f, ms)));
    assert s in VectorRanking(num, ms, query) <==> s in Map(f, ms) && s.score > VECTOR_GATE;
    if s in Map(f, ms) {
      var i :| 0 <= i < |ms| && Map(f, ms)[i] == s;
      assert ms[i] in ms;
    }
    if m :| m in ms && s == f(m) {
      var i :| 0 <= i < |ms| && ms[i] == m;
      assert Map(f, ms)[i] == s;
    }
  }

  // Both rankings hold ids of candidates only, so the authorisation guard of fusion is always met.
  lemma RankedAreAuthorized(num: Numerics, ms: seq<Record>, query: string)
    ensures var rankings := [Fusion.RankingIds(LexicalRanking(num, ms, query)),
                             Fusion.RankingIds(VectorRanking(num, ms, query))];
            forall id :: Fusion.Ranked(rankings, id) ==> id in (set m | m in ms :: m.id)
  {
    var bm25, vector := LexicalRanking(num, ms, query), VectorRanking(num, ms, query);
    var rankings := [Fusion.RankingIds(bm25), Fusion.RankingIds(vector)];
    forall id | Fusion.Ranked(rankings, id) ensures id in (set m | m in ms :: m.id) {
      if id in Fusion.RankingIds(bm25) {
        RankingIdsMembers(bm25, id);
        var s :| s in bm25 && s.id == id;
        LexicalMembers(num, ms, query, s);
      } else {
        RankingIdsMembers(vector, id);
        var s :| s in vector && s.id == id;
        VectorMembers(num, ms, query, s);
      }
    }
  }
}
