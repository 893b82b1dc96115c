/** In which order each mode ranks: by scores spelled out, then by age and id. */
module OrderLaws {
  import opened Seqs
  import opened Sorting
  import opened Text
  import opened Models
  import opened StoreModel
  import opened Corpus
  import opened Ranking
  import opened Retrieval
  import opened Assembler
  import opened Positions
  import Reals
  import Bm25
  import Fusion
  import RetrievalLaws

  // a was created before b, or at the same time under an id that is not greater.
  predicate Older(a: Record, b: Record) {
    Less(a.createdAt, b.createdAt) || (a.createdAt == b.createdAt && AtMost(a.id, b.id))
  }

  // ----- Classic mode -----

  // The weighted sum of confidence, status, recency and, for a query with tokens, of lexical score and tags.
  ghost function ClassicScore(num: Numerics, w: Weights, ms: seq<Record>, terms: seq<string>, m: Record): real {
    var st := Ranking.Collect(ms);
    Reals.Mul(w.confidence, m.confidence)
    + (if m.status == "active" then w.status else 0.0)
    + Reals.Mul(w.recency, RecencyFraction(st, m))
    + if terms == [] then 0.0
      else Reals.Mul(w.lexical, Lexical(num, st, m, terms)) + Reals.Mul(w.tag, TagOverlap(m, terms) as real)
  }

  lemma ClassicScoreIs(num: Numerics, w: Weights, ms: seq<Record>, terms: seq<string>, m: Record)
    ensures Ranking.Score(num, w, Ranking.Collect(ms), terms, m) == ClassicScore(num, w, ms, terms, m)
  {
    var st := Ranking.Collect(ms);
    Reals.BlendIs(w.confidence, m.confidence, w.status, m.status == "active", w.recency, RecencyFraction(st, m));
  }

  // In classic mode, what comes first scores more, or as much and is older.
  lemma ClassicOrder(num: Numerics, w: Weights, ms: seq<Record>, query: string, i: nat, j: nat)
    requires i < j < |Rank(num, w, ms, query)|
    ensures var a, b := Rank(num, w, ms, query)[i], Rank(num, w, ms, query)[j];
            var sa, sb := ClassicScore(num, w, ms, Tokenize(query), a), ClassicScore(num, w, ms, Tokenize(query), b);
            sa > sb || (sa == sb && Older(a, b))
  {
    var key := KeyBy(num, w, Ranking.Collect(ms), Tokenize(query));
    var sorted := Sort(BestFirst, Map(key, ms));
    OrdersArePreorders();
    SortSorts(BestFirst, Map(key, ms));
    SortMembers(BestFirst, Map(key, ms));
    KeyedScore(num, w, ms, query, sorted[i]);
    KeyedScore(num, w, ms, query, sorted[j]);
  }

  lemma KeyedScore(num: Numerics, w: Weights, ms: seq<Record>, query: string, k: Keyed)
    requires k in Sort(BestFirst, Map(KeyBy(num, w, Ranking.Collect(ms), Tokenize(query)), ms))
    ensures k.score == ClassicScore(num, w, ms, Tokenize(query), k.memory)
  {
    var key := KeyBy(num, w, Ranking.Collect(ms), Tokenize(query));
    SortMembers(BestFirst, Map(key, ms));
    var i :| 0 <= i < |ms| && Map(key, ms)[i] == k;
    ClassicScoreIs(num, w, ms, Tokenize(query), ms[i]);
  }

  // Filtering by relevance keeps that order.
  lemma FilteredOrder<T(!new)>(p: T -> bool, s: seq<T>, i: nat, j: nat) returns (x: nat, y: nat)
    requires i < j < |Filter(p, s)|
    ensures x < y < |s| && s[x] == Filter(p, s)[i] && s[y] == Filter(p, s)[j]
  {
    var at := FilterPicks(p, s);
    x, y := at[i], at[j];
  }

  // The order of what classic selection chooses from.
  lemma ClassicRankedOrder(num: Numerics, cfg: Settings, ms: seq<Record>, query: string, i: nat, j: nat)
    requires cfg.mode.Classic? && i < j < |Ranked(num, cfg, ms, query)|
    ensures var a, b := Ranked(num, cfg, ms, query)[i], Ranked(num, cfg, ms, query)[j];
            var w, terms := cfg.ranking.(tag := cfg.tagBoost), Tokenize(query);
            var sa, sb := ClassicScore(num, w, ms, terms, a), ClassicScore(num, w, ms, terms, b);
            sa > sb || (sa == sb && Older(a, b))
  {
    var all, terms := Rank(num, Effective(cfg), ms, query), Tokenize(query);
    if terms != [] {
      var x, y := FilteredOrder(Relevant(num, Ranking.Collect(ms), terms), all, i, j);
      ClassicOrder(num, Effective(cfg), ms, query, x, y);
    } else {
      ClassicOrder(num, Effective(cfg), ms, query, i, j);
    }
  }

  // ----- The other modes -----

  // Relevance: the BM25 score among the candidates, the cosine of the embeddings, or the weighted sum of
  // reciprocal ranks in both rankings.
  ghost function RelevanceOf(num: Numerics, ms: seq<Record>, query: string, mode: Mode, m: Record): real {
    match mode
    case LexicalMode => Bm25.Score(num, Bm25.Collect(Map(DocumentOf, ms)), Tokenize(query), DocumentOf(m))
    case VectorMode => Similarity(num, query, m)
    case _ => Fusion.Total(RetrievalLaws.HybridRankings(num, ms, query), [1.0, 0.8], 60, m.id)
  }

  // Relevance, and what status, confidence and recency add to it.
  ghost function Merit(num: Numerics, ms: seq<Record>, query: string, mode: Mode, m: Record): real {
    RelevanceOf(num, ms, query, mode, m)
    + (if m.status == "active" then 0.20 else 0.0) + 0.08 * m.confidence + 0.12 * Recency(ms, m)
  }

  lemma LexicalScoreIs(num: Numerics, ms: seq<Record>, query: string, m: Record)
    requires Lawful(num) && NoDup(Ids(ms)) && m in ms && RetrievalLaws.Shares(query, m)
    ensures ScoreIn(LexicalRanking(num, ms, query), m.id) ==
            Bm25.Score(num, Bm25.Collect(Map(DocumentOf, ms)), Tokenize(query), DocumentOf(m))
  {
    var docs := Map(DocumentOf, ms);
    var s := Bm25.Scoring(num, Bm25.Collect(docs), Tokenize(query))(DocumentOf(m));
    RetrievalLaws.LexicalEvidence(num, ms, query, m);
    RetrievalLaws.RankingsDistinct(num, ms, query);
    RetrievalLaws.ScoreInList(LexicalRanking(num, ms, query), m.id);
    Bm25.PositiveIffShared(num, docs, Tokenize(query), DocumentOf(m));
    forall t ensures t in DocumentOf(m).tokens <==> t in Tokenize(m.title) || t in Tokenize(m.body) {
      RetrievalLaws.DocumentTokens(m, t);
    }
    LexicalMembers(num, ms, query, s);
    assert s in LexicalRanking(num, ms, query) && s.id == m.id;
  }

  lemma VectorScoreIs(num: Numerics, ms: seq<Record>, query: string, m: Record)
    requires NoDup(Ids(ms)) && m in ms && RetrievalLaws.Near(num, query, m)
    ensures ScoreIn(VectorRanking(num, ms, query), m.id) == Similarity(num, query, m)
  {
    var s := SimilarTo(num, query)(m);
    RetrievalLaws.RankingsDistinct(num, ms, query);
    RetrievalLaws.ScoreInList(VectorRanking(num, ms, query), m.id);
    VectorMembers(num, ms, query, s);
    assert s in VectorRanking(num, ms, query) && s.id == m.id;
  }

  lemma HybridScoreIs(num: Numerics, ms: seq<Record>, query: string, m: Record)
    requires NoDup(Ids(ms))
    ensures ScoreIn(Gather(num, ms, query, Hybrid).relevance, m.id) == RelevanceOf(num, ms, query, Hybrid, m)
  {
    RetrievalLaws.FusedFacts(num, ms, query);
    assert Weights2() == [1.0, 0.8];
  }

  // What supports a result in a mode: a token shared with the query, a cosine over the gate, or either.
  ghost predicate Evident(num: Numerics, query: string, mode: Mode, m: Record) {
    match mode
    case LexicalMode => RetrievalLaws.Shares(query, m)
    case VectorMode => RetrievalLaws.Near(num, query, m)
    case _ => RetrievalLaws.Shares(query, m) || RetrievalLaws.Near(num, query, m)
  }

  lemma MeritIs(num: Numerics, ms: seq<Record>, query: string, mode: Mode, m: Record)
    requires Lawful(num) && NoDup(Ids(ms)) && m in ms && !mode.Classic? && Evident(num, query, mode, m)
    ensures TotalScore(ms, Gather(num, ms, query, mode), m) == Merit(num, ms, query, mode, m)
  {
    match mode
    case LexicalMode => LexicalScoreIs(num, ms, query, m);
    case VectorMode => VectorScoreIs(num, ms, query, m);
    case Hybrid => HybridScoreIs(num, ms, query, m);
  }

  lemma ResultIsEvident(num: Numerics, ms: seq<Record>, query: string, mode: Mode, m: Record)
    requires Lawful(num) && NoDup(Ids(ms)) && !mode.Classic? && m in RankByEvidence(ms, Gather(num, ms, query, mode))
    ensures m in ms && Evident(num, query, mode, m)
  {
    EvidenceIsDistinct(num, ms, query, mode);
    RetrievalLaws.ResultMembers(ms, Gather(num, ms, query, mode));
    match mode
    case LexicalMode => RetrievalLaws.LexicalEvidence(num, ms, query, m);
    case VectorMode => RetrievalLaws.VectorEvidence(num, ms, query, m);
    case Hybrid => RetrievalLaws.HybridEvidence(num, ms, query, m);
  }

  lemma EvidenceIsDistinct(num: Numerics, ms: seq<Record>, query: string, mode: Mode)
    requires NoDup(Ids(ms)) && !mode.Classic?
    ensures RetrievalLaws.Distinct(Gather(num, ms, query, mode).relevance)
  {
    RetrievalLaws.RankingsDistinct(num, ms, query);
    if mode.Hybrid? {
      RetrievalLaws.FusedFacts(num, ms, query);
    }
  }

  // In every other mode, what comes first has more merit, or as much and is older.
  lemma ResultsInOrder(num: Numerics, ms: seq<Record>, query: string, mode: Mode, i: nat, j: nat)
    requires Lawful(num) && NoDup(Ids(ms)) && (forall m :: m in ms ==> HasId(m)) && !mode.Classic? && !Blank(query)
    requires i < j < |RankCandidates(num, ms, query, mode)|
    ensures var a, b := RankCandidates(num, ms, query, mode)[i], RankCandidates(num, ms, query, mode)[j];
            var ma, mb := Merit(num, ms, query, mode, a), Merit(num, ms, query, mode, b);
            ma > mb || (ma == mb && Older(a, b))
  {
    FilterAll(HasId, ms);
    var ev := Gather(num, ms, query, mode);
    var keyed := Candidates(ms, ev, Fusion.RankingIds(ev.relevance));
    var sorted := Sort(BestFirst, keyed);
    OrdersArePreorders();
    SortSorts(BestFirst, keyed);
    ResultMerit(num, ms, query, mode, i);
    ResultMerit(num, ms, query, mode, j);
    assert BestFirst(sorted[i], sorted[j]);
  }

  lemma ResultMerit(num: Numerics, ms: seq<Record>, query: string, mode: Mode, i: nat)
    requires Lawful(num) && NoDup(Ids(ms)) && !mode.Classic?
    requires i < |RankByEvidence(ms, Gather(num, ms, query, mode))|
    ensures var ev := Gather(num, ms, query, mode);
            var k := Sort(BestFirst, Candidates(ms, ev, Fusion.RankingIds(ev.relevance)))[i];
            k.memory == RankByEvidence(ms, ev)[i] && k.score == Merit(num, ms, query, mode, k.memory)
  {
    var ev := Gather(num, ms, query, mode);
    var ids := Fusion.RankingIds(ev.relevance);
    var keyed := Candidates(ms, ev, ids);
    var k := Sort(BestFirst, keyed)[i];
    SortMembers(BestFirst, keyed);
    assert k in Sort(BestFirst, keyed);
    EvidenceIsDistinct(num, ms, query, mode);
    RetrievalLaws.RankingIdsDistinct(ev.relevance);
    RetrievalLaws.CandidatesMembers(ms, ev, ids);
    assert k.memory in RankByEvidence(ms, ev);
    ResultIsEvident(num, ms, query, mode, k.memory);
    MeritIs(num, ms, query, mode, k.memory);
  }

  // The recency of the i-th oldest of n candidates is i / (n - 1); a single one has recency 1.
  lemma RecencyByAge(ms: seq<Record>, i: nat)
    requires NoDup(Ids(ms)) && (forall m :: m in ms ==> HasId(m)) && i < |ms|
    ensures var byAge := Sort(Earlier, ms);
            && |byAge| == |ms| && Permuted(byAge, ms) && Sorted(Older, byAge)
            && Recency(ms, byAge[i]) == if |ms| == 1 then 1.0 else i as real / (|ms| - 1) as real
  {
    FilterAll(HasId, ms);
    var byAge := Sort(Earlier, ms);
    OrdersArePreorders();
    SortSorts(Earlier, ms);
    SortPermutes(Earlier, ms);
    SortMembers(Earlier, ms);
    MapPermuted(IdOf, ms, byAge);
    NoDupPermuted(Ids(ms), Ids(byAge));
    RetrievalLaws.LastIndexAt(Ids(byAge), i);
    assert Ids(byAge)[i] == byAge[i].id;
  }
}
