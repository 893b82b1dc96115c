/** Okapi BM25 over the candidates handed in, and bounds on its scores. */
module Bm25 {
  import opened Seqs
  import opened Sorting
  import opened Text
  import opened Corpus
  import opened Reals

  datatype Document = Document(id: string, tokens: seq<string>)
  datatype Scored = Scored(id: string, score: real)

  // Body tokens, then the title tokens twice.
  function BuildDocument(id: string, body: string, title: string): Document {
    Document(id, Tokenize(body) + if title == "" then [] else Tokenize(title) + Tokenize(title))
  }

  function TokenSet(d: Document): set<string> {
    set t | t in d.tokens
  }

  function Length(d: Document): int {
    |d.tokens|
  }

  // The corpus statistics of an index.
  datatype Stats = Stats(n: int, avgLength: real, df: map<string, int>)

  function Collect(docs: seq<Document>): Stats {
    Stats(if |docs| > 1 then |docs| else 1,
          if docs == [] then 0.0 else Sum(Length, docs) as real / |docs| as real,
          Frequencies(Map(TokenSet, docs)))
  }

  function Weight(num: Numerics, st: Stats, t: string): real {
    var f := FrequencyOf(st.df, t);
    if f >= 0 then Idf(num, st.n, f) else 0.0
  }

  function Tf(d: Document, t: string): nat {
    multiset(d.tokens)[t]
  }

  // The length penalty 1.2 * (1 - 0.75 + 0.75 * length / average).
  function Penalty(st: Stats, length: int): real {
    var average := if st.avgLength == 0.0 then 1.0 else st.avgLength;
    1.2 * (1.0 - 0.75 + 0.75 * (length as real / average))
  }

  // What one occurrence of a term in the query adds, for tf occurrences in a document.
  function Gain(idf: real, tf: real, penalty: real): real
    requires tf + penalty != 0.0
  {
    idf * (tf * (1.2 + 1.0)) / (tf + penalty)
  }

  function TermScore(num: Numerics, st: Stats, d: Document, t: string): real {
    var tf, p := Tf(d, t) as real, Penalty(st, |d.tokens|);
    if Tf(d, t) == 0 || tf + p == 0.0 then 0.0 else Gain(Weight(num, st, t), tf, p)
  }

  function TermSum(num: Numerics, st: Stats, query: seq<string>, d: Document): real {
    if query == [] then 0.0
    else TermSum(num, st, query[..|query| - 1], d) + TermScore(num, st, d, query[|query| - 1])
  }

  function Score(num: Numerics, st: Stats, query: seq<string>, d: Document): real {
    if query == [] || d.tokens == [] then 0.0 else TermSum(num, st, query, d)
  }

  function Scoring(num: Numerics, st: Stats, query: seq<string>): Document -> Scored {
    (d: Document) => Scored(d.id, Score(num, st, query, d))
  }

  predicate Positive(s: Scored) {
    s.score > 0.0
  }

  predicate BestFirst(a: Scored, b: Scored) {
    a.score > b.score || (a.score == b.score && AtMost(a.id, b.id))
  }

  function Rank(num: Numerics, docs: seq<Document>, query: seq<string>): seq<Scored> {
    Sort(BestFirst, Filter(Positive, Map(Scoring(num, Collect(docs), query), docs)))
  }

  // An index over one authorised candidate set, built per query.
  class BM25Index {
    const docs: seq<Document>
    const stats: Stats

    constructor (docs: seq<Document>)
      ensures this.docs == docs && stats == Collect(docs)
    {
      this.docs := docs;
      var total, sets := 0, [];
      for i := 0 to |docs|
        invariant total == Sum(Length, docs[..i]) && sets == Map(TokenSet, docs[..i])
      {
        assert docs[..i + 1][..i] == docs[..i];
        total := total + |docs[i].tokens|;
        sets := sets + [TokenSet(docs[i])];
      }
      assert docs[..|docs|] == docs;
      var df := CountFrequencies(sets);
      stats := Stats(if |docs| > 1 then |docs| else 1,
                     if docs == [] then 0.0 else total as real / |docs| as real, df);
    }

    method ScoreDocument(num: Numerics, query: seq<string>, d: Document) returns (total: real)
      ensures total == Score(num, stats, query, d)
    {
      total := 0.0;
      if query == [] || d.tokens == [] {
        return;
      }
      var counts: map<string, nat> := map[];
      for i := 0 to |d.tokens|
        invariant forall t :: (if t in counts then counts[t] else 0) == multiset(d.tokens[..i])[t]
      {
        assert d.tokens[..i + 1] == d.tokens[..i] + [d.tokens[i]];
        var token := d.tokens[i];
        counts := counts[token := (if token in counts then counts[token] else 0) + 1];
      }
      assert d.tokens[..|d.tokens|] == d.tokens;
      var p := Penalty(stats, |d.tokens|);
      for i := 0 to |query|
        invariant total == TermSum(num, stats, query[..i], d)
      {
        assert query[..i + 1][..i] == query[..i];
        var tf := if query[i] in counts then counts[query[i]] else 0;
        if tf != 0 && tf as real + p != 0.0 {
          total := total + Gain(Weight(num, stats, query[i]), tf as real, p);
        }
      }
      assert query[..|query|] == query;
    }

    method RankDocuments(num: Numerics, query: seq<string>) returns (ranked: seq<Scored>)
      requires stats == Collect(docs)
      ensures ranked == Rank(num, docs, query)
    {
      var scored := [];
      for i := 0 to |docs|
        invariant scored == Map(Scoring(num, stats, query), docs[..i])
      {
        var score := ScoreDocument(num, query, docs[i]);
        scored := scored + [Scored(docs[i].id, score)];
      }
      assert docs[..|docs|] == docs;
      ranked := Sort(BestFirst, Filter(Positive, scored));
    }
  }

  // ----- Bounds -----

  lemma GainBounds(idf: real, tf: real, p: real)
    requires idf >= 1.0 && tf > 0.0 && p > 0.0
    ensures 0.0 < Gain(idf, tf, p) <= 2.2 * idf
  {
    var a, b := tf * 2.2, tf + p;
    assert 0.0 < a / b <= 2.2 by {
      assert a <= 2.2 * b;
    }
    assert Gain(idf, tf, p) == idf * (a / b);
    GainProduct(idf, a / b);
  }

  lemma GainProduct(idf: real, x: real)
    requires idf >= 1.0 && 0.0 < x <= 2.2
    ensures 0.0 < idf * x <= 2.2 * idf
  {
  }

  // At a fixed length the gain rises with the term frequency.
  lemma GainRises(idf: real, tf1: real, tf2: real, p: real)
    requires idf >= 1.0 && 0.0 < tf1 < tf2 && p > 0.0
    ensures Gain(idf, tf1, p) < Gain(idf, tf2, p)
  {
    CrossOrder(tf1, tf2, p);
    QuotientOrder(tf1, tf1 + p, tf2, tf2 + p);
    GainAsProduct(idf, tf1, p);
    GainAsProduct(idf, tf2, p);
    MulOrder(Quotient(tf1, tf1 + p), Quotient(tf2, tf2 + p), idf * 2.2);
  }

  lemma GainAsProduct(idf: real, tf: real, p: real)
    requires tf + p > 0.0
    ensures Gain(idf, tf, p) == Mul(Quotient(tf, tf + p), idf * 2.2)
  {
    var d, q := tf + p, tf / (tf + p);
    assert q * d == tf;
    Regrouped(q, idf, d, tf);
    QuotientUnique(idf * (tf * 2.2), d, Mul(q, idf * 2.2));
  }

  lemma Regrouped(q: real, idf: real, d: real, tf: real)
    requires q * d == tf
    ensures Mul(Mul(q, idf * 2.2), d) == idf * (tf * 2.2)
  {
    assert q * (idf * 2.2) * d == idf * (q * d * 2.2);
  }

  lemma {:induction false} LengthsNotNegative(docs: seq<Document>)
    ensures Sum(Length, docs) >= 0
  {
    if docs != [] {
      LengthsNotNegative(docs[..|docs| - 1]);
    }
  }

  lemma PenaltyPositive(docs: seq<Document>, length: int)
    requires length >= 0
    ensures Penalty(Collect(docs), length) > 0.0
  {
    LengthsNotNegative(docs);
    var average := if Collect(docs).avgLength == 0.0 then 1.0 else Collect(docs).avgLength;
    if docs != [] {
      QuotientNotNegative(Sum(Length, docs) as real, |docs| as real);
    }
    QuotientNotNegative(length as real, average);
  }

  lemma QuotientNotNegative(a: real, b: real)
    requires a >= 0.0 && b > 0.0
    ensures a / b >= 0.0
  {
  }

  // df counts documents, so the weight of every term is at least 1.
  lemma WeightAtLeastOne(num: Numerics, docs: seq<Document>, t: string)
    requires Lawful(num)
    ensures FrequencyOf(Collect(docs).df, t) == Holding(Map(TokenSet, docs), t)
    ensures Weight(num, Collect(docs), t) >= 1.0
  {
    FrequencyCounts(Map(TokenSet, docs), t);
    IdfAtLeastOne(num, Collect(docs).n, Holding(Map(TokenSet, docs), t));
  }

  function WeightSum(num: Numerics, st: Stats, query: seq<string>): real {
    if query == [] then 0.0 else WeightSum(num, st, query[..|query| - 1]) + Weight(num, st, query[|query| - 1])
  }

  // Every score lies between 0 and 2.2 times the summed weights of the query terms.
  lemma {:induction false} ScoreBounds(num: Numerics, docs: seq<Document>, query: seq<string>, d: Document)
    requires Lawful(num)
    ensures 0.0 <= TermSum(num, Collect(docs), query, d) <= 2.2 * WeightSum(num, Collect(docs), query)
    ensures 0.0 <= Score(num, Collect(docs), query, d) <= 2.2 * WeightSum(num, Collect(docs), query)
    ensures TermSum(num, Collect(docs), query, d) > 0.0 <==> exists t :: t in query && t in d.tokens
  {
    var st := Collect(docs);
    if query != [] {
      var init, t := query[..|query| - 1], query[|query| - 1];
      assert query == init + [t];
      ScoreBounds(num, docs, init, d);
      WeightAtLeastOne(num, docs, t);
      PenaltyPositive(docs, |d.tokens|);
      if t in d.tokens {
        assert t in multiset(d.tokens);
        GainBounds(Weight(num, st, t), Tf(d, t) as real, Penalty(st, |d.tokens|));
      } else {
        assert t !in multiset(d.tokens);
      }
    }
  }

  // A score is positive exactly when a query term occurs in the document.
  lemma PositiveIffShared(num: Numerics, docs: seq<Document>, query: seq<string>, d: Document)
    requires Lawful(num)
    ensures Score(num, Collect(docs), query, d) > 0.0 <==> exists t :: t in query && t in d.tokens
  {
    ScoreBounds(num, docs, query, d);
  }

  lemma TermRises(num: Numerics, docs: seq<Document>, t: string, a: Document, b: Document)
    requires Lawful(num) && |a.tokens| == |b.tokens| && Tf(a, t) <= Tf(b, t)
    ensures var st := Collect(docs);
            && TermScore(num, st, a, t) <= TermScore(num, st, b, t)
            && (Tf(a, t) < Tf(b, t) ==> TermScore(num, st, a, t) < TermScore(num, st, b, t))
  {
    var st := Collect(docs);
    WeightAtLeastOne(num, docs, t);
    PenaltyPositive(docs, |a.tokens|);
    if Tf(a, t) < Tf(b, t) {
      if Tf(a, t) > 0 {
        GainRises(Weight(num, st, t), Tf(a, t) as real, Tf(b, t) as real, Penalty(st, |a.tokens|));
      } else {
        GainBounds(Weight(num, st, t), Tf(b, t) as real, Penalty(st, |b.tokens|));
      }
    }
  }

  lemma {:induction false} SumRises(num: Numerics, docs: seq<Document>, query: seq<string>, a: Document, b: Document)
    requires Lawful(num) && |a.tokens| == |b.tokens| && forall t :: t in query ==> Tf(a, t) <= Tf(b, t)
    ensures TermSum(num, Collect(docs), query, a) <= TermSum(num, Collect(docs), query, b)
    ensures (exists t :: t in query && Tf(a, t) < Tf(b, t)) ==>
              TermSum(num, Collect(docs), query, a) < TermSum(num, Collect(docs), query, b)
  {
    if query != [] {
      var init, last := query[..|query| - 1], query[|query| - 1];
      assert forall t :: t in query <==> t in init || t == last;
      SumRises(num, docs, init, a, b);
      TermRises(num, docs, last, a, b);
    }
  }

  // Of two documents of the same length, the one in which every query term occurs at least as often, and
  // some query term more often, scores higher.
  lemma ScoreRisesWithFrequency(num: Numerics, docs: seq<Document>, query: seq<string>, a: Document, b: Document)
    requires Lawful(num) && |a.tokens| == |b.tokens|
    requires forall t :: t in query ==> Tf(a, t) <= Tf(b, t)
    requires exists t :: t in query && Tf(a, t) < Tf(b, t)
    ensures Score(num, Collect(docs), query, a) < Score(num, Collect(docs), query, b)
  {
    SumRises(num, docs, query, a, b);
    var t :| t in query && Tf(a, t) < Tf(b, t);
    assert t in multiset(b.tokens);
  }

  // ----- Order independence -----

  lemma BestFirstIsPreorder()
    ensures Preorder(BestFirst)
    ensures forall a, b :: BestFirst(a, b) && BestFirst(b, a) ==> a == b
  {
    OrderLaws();
  }

  lemma CollectPermuted(a: seq<Document>, b: seq<Document>)
    requires Permuted(a, b)
    ensures Collect(a) == Collect(b)
  {
    PermutedMembers(a, b);
    SumPermuted(Length, a, b);
    MapPermuted(TokenSet, a, b);
    FrequenciesPermuted(Map(TokenSet, a), Map(TokenSet, b));
  }

  // Statistics and ranking forget the order in which the documents were given.
  lemma RankPermuted(num: Numerics, a: seq<Document>, b: seq<Document>, query: seq<string>)
    requires Permuted(a, b)
    ensures Rank(num, a, query) == Rank(num, b, query)
  {
    CollectPermuted(a, b);
    var f := Scoring(num, Collect(a), query);
    MapPermuted(f, a, b);
    PermutedFilter(Positive, Map(f, a), Map(f, b));
    BestFirstIsPreorder();
    SortPermuted(BestFirst, Filter(Positive, Map(f, a)), Filter(Positive, Map(f, b)));
  }
}
