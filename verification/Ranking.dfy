/** The blended scorer of the classic mode. */
module Ranking {
  import opened Seqs
  import opened Sorting
  import opened Text
  import opened Models
  import opened StoreModel
  import opened Corpus
  import Reals

  datatype Weights = Weights(
    lexical: real, confidence: real, recency: real, tag: real, status: real, dedupeThreshold: real)

  const DEFAULT_WEIGHTS := Weights(1.0, 1.0, 0.25, 0.5, 0.5, 0.92)

  function MemoryTokens(m: Record): seq<string> {
    Tokenize(m.title + " " + m.body)
  }

  function TokenSet(m: Record): set<string> {
    set t | t in MemoryTokens(m)
  }

  // By creation time, then id.
  predicate Earlier(a: Record, b: Record) {
    Less(a.createdAt, b.createdAt) || (a.createdAt == b.createdAt && AtMost(a.id, b.id))
  }

  predicate HasId(m: Record) {
    m.id != ""
  }

  // The last position of an id; 0 when it is missing.
  function LastIndex(ids: seq<string>, id: string): nat {
    if ids == [] then 0
    else if ids[|ids| - 1] == id then |ids| - 1
    else LastIndex(ids[..|ids| - 1], id)
  }

  // What a scorer computes from its candidate set: size, document frequencies, ids from old to new.
  datatype Stats = Stats(n: int, df: map<string, int>, byAge: seq<string>)

  function ByAge(ms: seq<Record>): seq<string> {
    Ids(Sort(Earlier, Filter(HasId, ms)))
  }

  function Collect(ms: seq<Record>): Stats {
    Stats(if |ms| > 1 then |ms| else 1, Frequencies(Map(TokenSet, ms)), ByAge(ms))
  }

  function RecencyFraction(st: Stats, m: Record): real {
    if st.n <= 1 then 1.0 else LastIndex(st.byAge, m.id) as real / (st.n - 1) as real
  }

  function TermWeight(num: Numerics, st: Stats, tf: nat, t: string): real {
    var f := FrequencyOf(st.df, t);
    if tf == 0 || f < 0 then 0.0 else tf as real / (tf as real + 1.0) * Idf(num, st.n, f)
  }

  function Lexical(num: Numerics, st: Stats, m: Record, terms: seq<string>): real {
    if terms == [] then 0.0
    else
      Lexical(num, st, m, terms[..|terms| - 1]) +
      TermWeight(num, st, multiset(MemoryTokens(m))[terms[|terms| - 1]], terms[|terms| - 1])
  }

  function InTags(m: Record): string -> int {
    (t: string) => if exists tag :: tag in m.tags && Contains(tag, t) then 1 else 0
  }

  function TagOverlap(m: Record, terms: seq<string>): int {
    Sum(InTags(m), terms)
  }

  // What a memory scores without a query.
  function Standing(w: Weights, st: Stats, m: Record): real {
    Reals.Blend(w.confidence, m.confidence, w.status, if m.status == "active" then 1.0 else 0.0,
                w.recency, RecencyFraction(st, m))
  }

  // What matching the query adds.
  function Relevance(w: Weights, terms: seq<string>, lexical: real, tagOverlap: int): real {
    if terms == [] then 0.0 else Reals.Mix(w.lexical, lexical, w.tag, tagOverlap as real)
  }

  function Score(num: Numerics, w: Weights, st: Stats, terms: seq<string>, m: Record): real {
    Standing(w, st, m) + Relevance(w, terms, Lexical(num, st, m, terms), TagOverlap(m, terms))
  }

  // The counting and summing loops of _lexical.
  method ComputeLexical(num: Numerics, st: Stats, m: Record, terms: seq<string>) returns (total: real)
    ensures total == Lexical(num, st, m, terms)
  {
    var tokens := MemoryTokens(m);
    var counts: map<string, nat> := map[];
    for i := 0 to |tokens|
      invariant forall t :: (if t in counts then counts[t] else 0) == multiset(tokens[..i])[t]
    {
      assert tokens[..i + 1] == tokens[..i] + [tokens[i]];
      counts := counts[tokens[i] := (if tokens[i] in counts then counts[tokens[i]] else 0) + 1];
    }
    assert tokens[..|tokens|] == tokens;
    total := 0.0;
    for i := 0 to |terms|
      invariant total == Lexical(num, st, m, terms[..i])
    {
      assert terms[..i + 1][..i] == terms[..i];
      var tf := if terms[i] in counts then counts[terms[i]] else 0;
      total := total + TermWeight(num, st, tf, terms[i]);
    }
    assert terms[..|terms|] == terms;
  }

  // A memory with the key it is sorted by: falling score, then creation time, then id.
  datatype Keyed = Keyed(score: real, memory: Record)

  predicate BestFirst(a: Keyed, b: Keyed) {
    a.score > b.score || (a.score == b.score && Earlier(a.memory, b.memory))
  }

  function MemoryOf(k: Keyed): Record {
    k.memory
  }

  function KeyBy(num: Numerics, w: Weights, st: Stats, terms: seq<string>): Record -> Keyed {
    (m: Record) => Keyed(Score(num, w, st, terms, m), m)
  }

  function Rank(num: Numerics, w: Weights, ms: seq<Record>, query: string): seq<Record> {
    Map(MemoryOf, Sort(BestFirst, Map(KeyBy(num, w, Collect(ms), Tokenize(query)), ms)))
  }

  // ----- Order independence -----

  lemma OrdersArePreorders()
    ensures Preorder(Earlier) && Preorder(BestFirst)
    ensures forall a, b :: Earlier(a, b) && Earlier(b, a) ==> a.id == b.id
  {
    OrderLaws();
  }

  lemma DistinctIds(ms: seq<Record>, a: Record, b: Record)
    requires NoDup(Ids(ms)) && a in ms && b in ms && a.id == b.id
    ensures a == b
  {
    UniqueId(ms, a, b);
  }

  lemma ByAgePermuted(a: seq<Record>, b: seq<Record>)
    requires Permuted(a, b) && NoDup(Ids(a))
    ensures ByAge(a) == ByAge(b)
  {
    PermutedFilter(HasId, a, b);
    OrdersArePreorders();
    var fa := Filter(HasId, a);
    forall x, y | x in fa && y in fa && Earlier(x, y) && Earlier(y, x) ensures x == y {
      DistinctIds(a, x, y);
    }
    SortPermuted(Earlier, fa, Filter(HasId, b));
  }

  lemma CollectPermuted(a: seq<Record>, b: seq<Record>)
    requires Permuted(a, b) && NoDup(Ids(a))
    ensures Collect(a) == Collect(b)
  {
    PermutedMembers(a, b);
    MapPermuted(TokenSet, a, b);
    FrequenciesPermuted(Map(TokenSet, a), Map(TokenSet, b));
    ByAgePermuted(a, b);
  }

  // Keyed memories with distinct ids sort to one sequence, whatever order they come in.
  lemma KeyedSortPermuted(a: seq<Keyed>, b: seq<Keyed>, ms: seq<Record>)
    requires Permuted(a, b) && NoDup(Ids(ms))
    requires forall k :: k in a ==> k.memory in ms
    requires forall k, l :: k in a && l in a && k.memory == l.memory ==> k == l
    ensures Sort(BestFirst, a) == Sort(BestFirst, b)
  {
    OrdersArePreorders();
    forall x, y | x in a && y in a && BestFirst(x, y) && BestFirst(y, x) ensures x == y {
      DistinctIds(ms, x.memory, y.memory);
    }
    SortPermuted(BestFirst, a, b);
  }

  // With distinct ids, permuting the candidates never changes the ranking.
  lemma RankPermuted(num: Numerics, w: Weights, a: seq<Record>, b: seq<Record>, query: string)
    requires Permuted(a, b) && NoDup(Ids(a))
    ensures Rank(num, w, a, query) == Rank(num, w, b, query)
  {
    CollectPermuted(a, b);
    var f := KeyBy(num, w, Collect(a), Tokenize(query));
    MapPermuted(f, a, b);
    forall k: Keyed | k in Map(f, a) ensures k.memory in a && k == f(k.memory) {
      var i :| 0 <= i < |a| && Map(f, a)[i] == k;
    }
    KeyedSortPermuted(Map(f, a), Map(f, b), a);
  }
}
