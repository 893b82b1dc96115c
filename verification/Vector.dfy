/** Token-hash embeddings and cosine similarity. */
module Vector {
  import opened Text
  import opened Corpus
  import opened Reals

  const EMBEDDING_DIM := 256

  function Zeros(dim: nat): seq<real> {
    seq(dim, i => 0.0)
  }

  // The buffer after the tokens' signs were added to their buckets.
  function TokenVector(num: Numerics, tokens: seq<string>, dim: nat): (v: seq<real>)
    requires dim > 0
    ensures |v| == dim
  {
    if tokens == [] then Zeros(dim)
    else
      var v, t := TokenVector(num, tokens[..|tokens| - 1], dim), tokens[|tokens| - 1];
      var b := num.bucket(t) % dim;
      v[b := v[b] + if num.positive(t) then 1.0 else -1.0]
  }

  function SumSquares(v: seq<real>): (r: real)
    ensures r >= 0.0
  {
    if v == [] then 0.0 else SumSquares(v[..|v| - 1]) + Square(v[|v| - 1])
  }

  function Dot(a: seq<real>, b: seq<real>): real
    requires |a| == |b|
  {
    if a == [] then 0.0 else Dot(a[..|a| - 1], b[..|b| - 1]) + Mul(a[|a| - 1], b[|b| - 1])
  }

  function Scaled(v: seq<real>, d: real): (r: seq<real>)
    requires d != 0.0
    ensures |r| == |v|
    ensures forall i :: 0 <= i < |v| ==> r[i] == Quotient(v[i], d)
  {
    seq(|v|, i requires 0 <= i < |v| => Quotient(v[i], d))
  }

  function Embedding(num: Numerics, text: string): (v: seq<real>)
    ensures |v| == EMBEDDING_DIM
  {
    var v := TokenVector(num, Tokenize(text), EMBEDDING_DIM);
    var norm := num.sqrt(SumSquares(v));
    if norm == 0.0 then v else Scaled(v, norm)
  }

  function Cosine(num: Numerics, a: seq<real>, b: seq<real>): real
    requires |a| == |b|
  {
    var na, nb := num.sqrt(SumSquares(a)), num.sqrt(SumSquares(b));
    if na == 0.0 || nb == 0.0 || Mul(na, nb) == 0.0 then 0.0 else Quotient(Dot(a, b), Mul(na, nb))
  }

  // The embedding's buffer, updated in place token by token.
  method Accumulate(num: Numerics, tokens: seq<string>) returns (vec: array<real>)
    ensures vec[..] == TokenVector(num, tokens, EMBEDDING_DIM)
  {
    vec := new real[EMBEDDING_DIM](i => 0.0);
    assert vec[..] == Zeros(EMBEDDING_DIM);
    for i := 0 to |tokens|
      invariant vec[..] == TokenVector(num, tokens[..i], EMBEDDING_DIM)
    {
      assert tokens[..i + 1][..i] == tokens[..i];
      var b := num.bucket(tokens[i]) % EMBEDDING_DIM;
      vec[b] := vec[b] + if num.positive(tokens[i]) then 1.0 else -1.0;
    }
    assert tokens[..|tokens|] == tokens;
  }

  method TotalSquares(vec: array<real>) returns (total: real)
    ensures total == SumSquares(vec[..])
  {
    total := 0.0;
    for i := 0 to vec.Length
      invariant total == SumSquares(vec[..i])
    {
      assert vec[..i + 1][..i] == vec[..i];
      total := total + Square(vec[i]);
    }
    assert vec[..vec.Length] == vec[..];
  }

  method Embed(num: Numerics, text: string) returns (embedding: seq<real>)
    ensures embedding == Embedding(num, text)
  {
    var vec := Accumulate(num, Tokenize(text));
    var total := TotalSquares(vec);
    var norm := num.sqrt(total);
    embedding := if norm == 0.0 then vec[..] else Scaled(vec[..], norm);
  }

  // ----- Norms -----

  lemma {:induction false} SumSquaresScaled(v: seq<real>, d: real)
    requires d != 0.0
    ensures Mul(SumSquares(Scaled(v, d)), Square(d)) == SumSquares(v)
  {
    if v == [] {
      MulNegated(0.0, Square(d));
    } else {
      var n := |v| - 1;
      SumSquaresScaled(v[..n], d);
      assert Scaled(v, d)[..n] == Scaled(v[..n], d);
      QuotientSquared(SumSquares(Scaled(v[..n], d)), v[n], d);
    }
  }

  lemma {:induction false} ZeroNorm(v: seq<real>)
    requires SumSquares(v) == 0.0
    ensures forall i :: 0 <= i < |v| ==> v[i] == 0.0
  {
    if v != [] {
      SquarePositive(v[|v| - 1]);
      ZeroNorm(v[..|v| - 1]);
    }
  }

  lemma Root(num: Numerics, x: real)
    requires Lawful(num) && x >= 0.0
    ensures num.sqrt(x) >= 0.0 && Square(num.sqrt(x)) == x
  {
  }

  lemma NormalizedIsUnit(v: seq<real>, norm: real)
    requires Square(norm) == SumSquares(v)
    ensures norm != 0.0 ==> SumSquares(Scaled(v, norm)) == 1.0
    ensures norm == 0.0 ==> forall i :: 0 <= i < |v| ==> v[i] == 0.0
  {
    MulNegated(norm, norm);
    if norm == 0.0 {
      ZeroNorm(v);
    } else {
      SumSquaresScaled(v, norm);
      SquarePositive(norm);
      UnitFactor(SumSquares(Scaled(v, norm)), Square(norm));
    }
  }

  // An embedding has length 1, or is zero because no bucket kept a sign.
  lemma EmbeddingIsUnitOrZero(num: Numerics, text: string)
    requires Lawful(num)
    ensures var e := Embedding(num, text);
            SumSquares(e) == 1.0 || forall i :: 0 <= i < |e| ==> e[i] == 0.0
  {
    var v := TokenVector(num, Tokenize(text), EMBEDDING_DIM);
    Root(num, SumSquares(v));
    NormalizedIsUnit(v, num.sqrt(SumSquares(v)));
  }

  // ----- Cauchy-Schwarz -----

  function Combined(a: seq<real>, b: seq<real>, t: real): (r: seq<real>)
    requires |a| == |b|
    ensures |r| == |a|
    ensures forall i :: 0 <= i < |a| ==> r[i] == Difference(t, a[i], b[i])
  {
    seq(|a|, i requires 0 <= i < |a| => Difference(t, a[i], b[i]))
  }

  lemma {:induction false} SquareOfCombination(a: seq<real>, b: seq<real>, t: real)
    requires |a| == |b|
    ensures SumSquares(Combined(a, b, t)) == Quadratic(t, SumSquares(a), Dot(a, b), SumSquares(b))
  {
    if a != [] {
      var n := |a| - 1;
      SquareOfCombination(a[..n], b[..n], t);
      assert Combined(a, b, t)[..n] == Combined(a[..n], b[..n], t);
      QuadraticGrows(t, a[n], b[n], SumSquares(a[..n]), Dot(a[..n], b[..n]), SumSquares(b[..n]));
      assert Combined(a, b, t)[n] == Difference(t, a[n], b[n]);
      assert SumSquares(Combined(a, b, t)) == SumSquares(Combined(a[..n], b[..n], t)) + Square(Difference(t, a[n], b[n]));
    }
  }

  lemma {:induction false} DotWithZero(a: seq<real>, b: seq<real>)
    requires |a| == |b| && forall i :: 0 <= i < |a| ==> a[i] == 0.0
    ensures Dot(a, b) == 0.0
  {
    if a != [] {
      DotWithZero(a[..|a| - 1], b[..|b| - 1]);
    }
  }

  lemma CauchySchwarz(a: seq<real>, b: seq<real>)
    requires |a| == |b|
    ensures Square(Dot(a, b)) <= Mul(SumSquares(a), SumSquares(b))
  {
    MulNegated(0.0, 0.0);
    MulNegated(0.0, SumSquares(b));
    if SumSquares(a) == 0.0 {
      ZeroNorm(a);
      DotWithZero(a, b);
    } else {
      SquareOfCombination(a, b, Quotient(Dot(a, b), SumSquares(a)));
      Discriminant(SumSquares(a), SumSquares(b), Dot(a, b));
    }
  }

  // Cosine similarity never leaves [-1, 1].
  lemma CosineBounded(num: Numerics, a: seq<real>, b: seq<real>)
    requires Lawful(num) && |a| == |b|
    ensures -1.0 <= Cosine(num, a, b) <= 1.0
  {
    Root(num, SumSquares(a));
    Root(num, SumSquares(b));
    CauchySchwarz(a, b);
    var na, nb := num.sqrt(SumSquares(a)), num.sqrt(SumSquares(b));
    if na != 0.0 && nb != 0.0 {
      SquareOfProduct(na, nb);
      QuotientBounded(Dot(a, b), Mul(na, nb));
    }
  }
}
