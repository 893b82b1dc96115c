/** What the scores of BM25, of classic ranking and of the embeddings depend on, and how. */
module ScoreLaws {
  import opened Seqs
  import opened Text
  import opened Models
  import opened Corpus
  import opened Ranking
  import opened Reals
  import Retrieval
  import Bm25
  import Vector

  // ----- Inverse document frequency -----

  // log grows strictly, from 0 at 1.
  ghost predicate Grows(num: Numerics) {
    num.ln(1.0) == 0.0 && forall x, y :: 1.0 <= x < y ==> num.ln(x) < num.ln(y)
  }

  // A rarer term weighs more, and one that every document holds weighs 1.
  lemma RarerWeighsMore(num: Numerics, n: int, f: int, g: int)
    requires Grows(num) && 0 <= f < g <= n
    ensures Idf(num, n, f) > Idf(num, n, g)
    ensures Idf(num, n, n) == 1.0
  {
    var a, x, y := (n + 1) as real, (f + 1) as real, (g + 1) as real;
    SmallerDivisor(a, x, y);
    AtLeastOne(a, y);
    assert a / a == 1.0;
  }

  lemma SmallerDivisor(a: real, x: real, y: real)
    requires a > 0.0 && 0.0 < x < y
    ensures a / x > a / y
  {
    MulOrder(x, y, a);
    MulCommutes(a, x);
    MulCommutes(a, y);
    QuotientOrder(a, y, a, x);
  }

  lemma AtLeastOne(a: real, y: real)
    requires 0.0 < y <= a
    ensures a / y >= 1.0
  {
  }

  // ----- BM25 -----

  // A title token counts twice, a body token once.
  lemma TitleCountsTwice(m: Record, t: string)
    ensures Bm25.Tf(Retrieval.DocumentOf(m), t) == multiset(Tokenize(m.body))[t] + 2 * multiset(Tokenize(m.title))[t]
    ensures |Retrieval.DocumentOf(m).tokens| == |Tokenize(m.body)| + 2 * |Tokenize(m.title)|
  {
    assert Tokenize("") == [];
  }

  // The length penalty runs from 0.3 for no length through 1.2 at the average, in proportion to the length.
  lemma PenaltyIs(st: Bm25.Stats, length: int)
    requires st.avgLength > 0.0
    ensures Bm25.Penalty(st, length) == 0.3 + 0.9 * (length as real / st.avgLength)
  {
  }

  // A single occurrence in a document of average length earns the weight of the term, and however many there
  // are, they earn less than 2.2 times as much.
  lemma AverageOccurrence(st: Bm25.Stats, idf: real, length: int)
    requires st.avgLength > 0.0 && length as real == st.avgLength
    ensures Bm25.Penalty(st, length) == 1.2 && Bm25.Gain(idf, 1.0, 1.2) == idf
  {
    assert length as real / st.avgLength == 1.0;
  }

  // Of two documents holding a term equally often, the longer one earns less for it.
  lemma LongerEarnsLess(st: Bm25.Stats, idf: real, tf: real, short: int, long: int)
    requires st.avgLength > 0.0 && idf > 0.0 && tf > 0.0 && 0 <= short < long
    ensures Bm25.Penalty(st, short) > 0.0 && Bm25.Penalty(st, long) > 0.0
    ensures Bm25.Gain(idf, tf, Bm25.Penalty(st, short)) > Bm25.Gain(idf, tf, Bm25.Penalty(st, long))
  {
    QuotientOfLengths(short as real, long as real, st.avgLength);
    var p, q := Bm25.Penalty(st, short), Bm25.Penalty(st, long);
    PositiveProduct(idf, tf * 2.2);
    SmallerDivisor(idf * (tf * 2.2), tf + p, tf + q);
  }

  lemma PositiveProduct(a: real, b: real)
    requires a > 0.0 && b > 0.0
    ensures a * b > 0.0
  {
  }

  lemma QuotientOfLengths(x: real, y: real, d: real)
    requires 0.0 <= x < y && d > 0.0
    ensures 0.0 <= x / d < y / d
  {
    var p, q := x / d, y / d;
    assert p * d == x && q * d == y;
  }

  // A rarer term earns more than a commoner one that occurs as often.
  lemma RarerEarnsMore(idf1: real, idf2: real, tf: real, p: real)
    requires idf1 > idf2 && tf > 0.0 && p > 0.0
    ensures Bm25.Gain(idf1, tf, p) > Bm25.Gain(idf2, tf, p)
  {
    Bm25.GainAsProduct(idf1, tf, p);
    Bm25.GainAsProduct(idf2, tf, p);
    QuotientPositive(tf, tf + p);
    MulCommutes(Quotient(tf, tf + p), idf1 * 2.2);
    MulCommutes(Quotient(tf, tf + p), idf2 * 2.2);
    MulOrder(idf2 * 2.2, idf1 * 2.2, Quotient(tf, tf + p));
  }

  lemma QuotientPositive(x: real, d: real)
    requires x > 0.0 && d > 0.0
    ensures Quotient(x, d) > 0.0
  {
  }

  // ----- Classic lexical score -----

  // A term that a memory holds adds at least half its weight and less than all of it, the more the more often
  // it occurs; one that it does not hold adds nothing.
  lemma OccurrencesSaturate(num: Numerics, st: Ranking.Stats, tf: nat, more: nat, t: string)
    requires FrequencyOf(st.df, t) >= 0 && Idf(num, st.n, FrequencyOf(st.df, t)) > 0.0 && 0 < tf < more
    ensures var idf := Idf(num, st.n, FrequencyOf(st.df, t));
            && TermWeight(num, st, 0, t) == 0.0
            && idf / 2.0 <= TermWeight(num, st, tf, t) < TermWeight(num, st, more, t) < idf
  {
    var idf := Idf(num, st.n, FrequencyOf(st.df, t));
    var x, y := tf as real, more as real;
    SaturatesOrder(x, y);
    ScaledBounds(0.5, x / (x + 1.0), y / (y + 1.0), idf);
  }

  lemma SaturatesOrder(x: real, y: real)
    requires 1.0 <= x < y
    ensures 0.5 <= x / (x + 1.0) < y / (y + 1.0) < 1.0
  {
    var p, q := x / (x + 1.0), y / (y + 1.0);
    assert p * (x + 1.0) == x && q * (y + 1.0) == y;
    assert p == 1.0 - 1.0 / (x + 1.0) && q == 1.0 - 1.0 / (y + 1.0);
    SmallerDivisor(1.0, x + 1.0, y + 1.0);
  }

  lemma ScaledBounds(a: real, p: real, q: real, k: real)
    requires a <= p < q < 1.0 && k > 0.0
    ensures a * k <= p * k < q * k < k
  {
    MulOrder(p, q, k);
    MulOrder(q, 1.0, k);
    if a < p {
      MulOrder(a, p, k);
    }
  }

  // Every query token that some tag holds counts once.
  lemma OneMoreTerm(m: Record, terms: seq<string>, t: string)
    ensures TagOverlap(m, []) == 0
    ensures TagOverlap(m, terms + [t]) ==
            TagOverlap(m, terms) + if exists i :: 0 <= i < |m.tags| && Contains(m.tags[i], t) then 1 else 0
  {
    assert (terms + [t])[..|terms|] == terms;
    if tag :| tag in m.tags && Contains(tag, t) {
      var i :| 0 <= i < |m.tags| && m.tags[i] == tag;
    }
  }

  // ----- Embeddings -----

  function SignAt(num: Numerics, dim: nat, b: nat): string -> int
    requires dim > 0
  {
    (t: string) => if num.bucket(t) % dim != b then 0 else if num.positive(t) then 1 else -1
  }

  // Before normalisation an entry is the number of its bucket's positive tokens less that of the negative ones.
  lemma {:induction false} EntryCounts(num: Numerics, tokens: seq<string>, dim: nat, b: nat)
    requires b < dim
    ensures Vector.TokenVector(num, tokens, dim)[b] == Sum(SignAt(num, dim, b), tokens) as real
  {
    if tokens != [] {
      EntryCounts(num, tokens[..|tokens| - 1], dim, b);
    }
  }

  lemma {:induction false} DotSelf(a: seq<real>)
    ensures Vector.Dot(a, a) == Vector.SumSquares(a)
  {
    if a != [] {
      DotSelf(a[..|a| - 1]);
    }
  }

  lemma {:induction false} DotCommutes(a: seq<real>, b: seq<real>)
    requires |a| == |b|
    ensures Vector.Dot(a, b) == Vector.Dot(b, a)
  {
    if a != [] {
      DotCommutes(a[..|a| - 1], b[..|b| - 1]);
      MulCommutes(a[|a| - 1], b[|b| - 1]);
    }
  }

  // Cosine similarity is symmetric, 1 of a vector that is not zero with itself, and the dot product of unit vectors.
  lemma CosineLaws(num: Numerics, a: seq<real>, b: seq<real>)
    requires Lawful(num) && |a| == |b|
    ensures Vector.Cosine(num, a, b) == Vector.Cosine(num, b, a)
    ensures Vector.SumSquares(a) != 0.0 ==> Vector.Cosine(num, a, a) == 1.0
    ensures Vector.SumSquares(a) == 1.0 && Vector.SumSquares(b) == 1.0 ==> Vector.Cosine(num, a, b) == Vector.Dot(a, b)
  {
    DotCommutes(a, b);
    DotSelf(a);
    Vector.Root(num, Vector.SumSquares(a));
    Vector.Root(num, Vector.SumSquares(b));
    MulCommutes(num.sqrt(Vector.SumSquares(a)), num.sqrt(Vector.SumSquares(b)));
    SelfRatio(num.sqrt(Vector.SumSquares(a)), Vector.SumSquares(a));
    UnitRoot(num.sqrt(Vector.SumSquares(a)), Vector.SumSquares(a));
    UnitRoot(num.sqrt(Vector.SumSquares(b)), Vector.SumSquares(b));
  }

  lemma SelfRatio(r: real, x: real)
    requires Square(r) == x
    ensures x != 0.0 ==> r != 0.0 && Mul(r, r) == x && Quotient(x, Mul(r, r)) == 1.0
  {
    MulNegated(r, r);
    if x != 0.0 {
      assert Mul(1.0, x) == x;
      QuotientUnique(x, x, 1.0);
    }
  }

  lemma UnitRoot(r: real, x: real)
    requires Square(r) == x && r >= 0.0
    ensures x == 1.0 ==> r == 1.0
  {
    if x == 1.0 {
      if r < 1.0 {
        MulOrder(r, 1.0, r + 1.0);
      } else if r > 1.0 {
        MulOrder(1.0, r, r + 1.0);
      }
    }
  }
}
