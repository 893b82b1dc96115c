/** Document frequencies, and the functions on reals that scoring takes from the platform. */
module Corpus {
  import opened Seqs

  // math.log, math.sqrt and the token hash of the embedding.
  datatype Numerics = Numerics(ln: real -> real, sqrt: real -> real, bucket: string -> nat, positive: string -> bool)

  // What is used of them: log is not negative from 1 on, and sqrt is the non-negative root.
  ghost predicate Lawful(num: Numerics) {
    && (forall x :: x >= 1.0 ==> num.ln(x) >= 0.0)
    && (forall x :: x >= 0.0 ==> num.sqrt(x) >= 0.0 && num.sqrt(x) * num.sqrt(x) == x)
  }

  function Holds(t: string): set<string> -> int {
    (tokens: set<string>) => if t in tokens then 1 else 0
  }

  // The number of documents whose token set holds t.
  function Holding(docs: seq<set<string>>, t: string): int {
    Sum(Holds(t), docs)
  }

  function Frequencies(docs: seq<set<string>>): map<string, int> {
    map t | t in AllTokens(docs) :: Holding(docs, t)
  }

  function AllTokens(docs: seq<set<string>>): set<string> {
    if docs == [] then {} else AllTokens(docs[..|docs| - 1]) + docs[|docs| - 1]
  }

  lemma {:induction false} HoldingBounds(docs: seq<set<string>>, t: string)
    ensures 0 <= Holding(docs, t) <= |docs|
    ensures Holding(docs, t) > 0 <==> t in AllTokens(docs)
  {
    if docs != [] {
      HoldingBounds(docs[..|docs| - 1], t);
    }
  }

  function FrequencyOf(df: map<string, int>, t: string): int {
    if t in df then df[t] else 0
  }

  lemma FrequencyCounts(docs: seq<set<string>>, t: string)
    ensures FrequencyOf(Frequencies(docs), t) == Holding(docs, t)
    ensures 0 <= Holding(docs, t) <= |docs|
  {
    HoldingBounds(docs, t);
  }

  // The counting loops over documents and over the tokens of each.
  method CountFrequencies(docs: seq<set<string>>) returns (df: map<string, int>)
    ensures df == Frequencies(docs)
  {
    df := map[];
    for i := 0 to |docs|
      invariant df == Frequencies(docs[..i])
    {
      ghost var before := docs[..i];
      assert docs[..i + 1] == before + [docs[i]];
      assert docs[..i + 1][..i] == before;
      var left := docs[i];
      while left != {}
        invariant left <= docs[i]
        invariant df.Keys == AllTokens(before) + (docs[i] - left)
        invariant forall t :: t in df ==> df[t] == Holding(before, t) + if t in docs[i] - left then 1 else 0
        decreases left
      {
        var token :| token in left;
        HoldingBounds(before, token);
        df := df[token := FrequencyOf(df, token) + 1];
        left := left - {token};
      }
    }
    assert docs[..|docs|] == docs;
  }

  lemma FrequenciesPermuted(a: seq<set<string>>, b: seq<set<string>>)
    requires Permuted(a, b)
    ensures Frequencies(a) == Frequencies(b)
  {
    forall t ensures Holding(a, t) == Holding(b, t) && (t in AllTokens(a) <==> t in AllTokens(b)) {
      SumPermuted(Holds(t), a, b);
      HoldingBounds(a, t);
      HoldingBounds(b, t);
    }
  }

  // log((n + 1) / (freq + 1)) + 1
  function Idf(num: Numerics, n: int, freq: int): real
    requires freq >= 0
  {
    num.ln((n + 1) as real / (freq + 1) as real) + 1.0
  }

  lemma IdfAtLeastOne(num: Numerics, n: int, freq: int)
    requires Lawful(num) && 0 <= freq <= n
    ensures Idf(num, n, freq) >= 1.0
  {
    var a, b := (n + 1) as real, (freq + 1) as real;
    assert a >= b && b > 0.0;
    assert a / b >= 1.0;
  }
}
