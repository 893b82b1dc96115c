/** Near-duplicate and contradiction pairs among memories. */
module PairDetection {
  import opened Seqs
  import opened Sorting
  import opened Text
  import opened Models
  import opened Ranking
  import Accumulate

  const DUPLICATE_THRESHOLD := 0.85
  const EXACT_THRESHOLD := 0.999
  const SUBJECT_OVERLAP := 0.5

  // The accent-stripping normalisation, the rounding to four decimals, and the word tables.
  datatype Vocabulary = Vocabulary(
    normalize: string -> string,
    rounded: real -> real,
    stopwords: set<string>,
    negations: set<string>,
    obligations: set<string>,
    opposites: seq<(string, string)>)

  function TextOf(m: Record): string {
    m.title + " " + m.body
  }

  function TokensOf(v: Vocabulary, m: Record): set<string> {
    set t | t in Words(v.normalize(TextOf(m)), "")
  }

  // |a & b| / |a | b| of two sets that are not both empty.
  function Overlap(a: set<string>, b: set<string>): real {
    if |a + b| == 0 then 0.0 else |a * b| as real / |a + b| as real
  }

  function Jaccard(v: Vocabulary, a: Record, b: Record): real {
    var sa, sb := TokensOf(v, a), TokensOf(v, b);
    if sa == {} && sb == {} then 1.0
    else if sa == {} || sb == {} then 0.0
    else Overlap(sa, sb)
  }

  // A pair names its two memories in id order; it is decided on the exact figure and carries the rounded one.
  datatype Pair =
    | Duplicate(left: string, right: string, similarity: real, exact: bool)
    | Contradiction(left: string, right: string, overlap: real, byNegation: bool)

  function LowId(a: Record, b: Record): string {
    if AtMost(a.id, b.id) then a.id else b.id
  }

  function HighId(a: Record, b: Record): string {
    if AtMost(a.id, b.id) then b.id else a.id
  }

  function DuplicatePair(v: Vocabulary): (Record, Record) -> seq<Pair> {
    (a: Record, b: Record) =>
      var similarity := Jaccard(v, a, b);
      if similarity < DUPLICATE_THRESHOLD then []
      else [Duplicate(LowId(a, b), HighId(a, b), v.rounded(similarity),
                      v.normalize(TextOf(a)) == v.normalize(TextOf(b)) || similarity >= EXACT_THRESHOLD)]
  }

  function Toggles(v: Vocabulary): set<string> {
    (set p | p in v.opposites :: p.0) + (set p | p in v.opposites :: p.1)
  }

  function SubjectTokens(v: Vocabulary, m: Record): set<string> {
    TokensOf(v, m) - v.stopwords - v.negations - v.obligations - Toggles(v)
  }

  predicate Negated(v: Vocabulary, m: Record) {
    TokensOf(v, m) * v.negations != {}
  }

  predicate Opposes(v: Vocabulary, a: set<string>, b: set<string>) {
    exists p :: p in v.opposites && ((p.0 in a && p.1 in b) || (p.1 in a && p.0 in b))
  }

  // Why two memories with enough common subject contradict each other.
  datatype Reason = Negation | Toggle | Agreement

  function ReasonOf(v: Vocabulary, a: Record, b: Record): Reason {
    if Negated(v, a) != Negated(v, b) then Negation
    else if Opposes(v, TokensOf(v, a) * Toggles(v), TokensOf(v, b) * Toggles(v)) then Toggle
    else Agreement
  }

  function ContradictionPair(v: Vocabulary): (Record, Record) -> seq<Pair> {
    (a: Record, b: Record) =>
      Contradictions(v, LowId(a, b), HighId(a, b), CommonSubject(v, a, b), ReasonOf(v, a, b))
  }

  // How much subject two memories share; None where it is not enough to compare them.
  function CommonSubject(v: Vocabulary, a: Record, b: Record): Option<real> {
    var sa, sb := SubjectTokens(v, a), SubjectTokens(v, b);
    if sa == {} || sb == {} || Overlap(sa, sb) < SUBJECT_OVERLAP then None else Some(Overlap(sa, sb))
  }

  function Contradictions(v: Vocabulary, low: string, high: string, overlap: Option<real>, reason: Reason): seq<Pair> {
    if overlap == None || reason == Agreement then []
    else [Contradiction(low, high, v.rounded(overlap.value), reason == Negation)]
  }

  // Most similar first, as rounded, then by ids and reason: "negation" comes before "toggle".
  function Weight(p: Pair): real {
    if p.Duplicate? then p.similarity else p.overlap
  }

  predicate ByToggle(p: Pair) {
    p.Contradiction? && !p.byNegation
  }

  predicate PairOrder(p: Pair, q: Pair) {
    || Weight(p) > Weight(q)
    || (Weight(p) == Weight(q)
        && (|| Less(p.left, q.left)
            || (p.left == q.left
                && (Less(p.right, q.right)
                    || (p.right == q.right
                        && (ByToggle(p) ==> ByToggle(q)))))))
  }

  function DuplicatePairs(v: Vocabulary, ms: seq<Record>): seq<Pair> {
    Sort(PairOrder, Accumulate.Pairs(DuplicatePair(v), Filter(HasId, ms)))
  }

  function ContradictionPairs(v: Vocabulary, ms: seq<Record>): seq<Pair> {
    Sort(PairOrder, Accumulate.Pairs(ContradictionPair(v), Filter(HasId, ms)))
  }

  method FindDuplicatePairs(v: Vocabulary, ms: seq<Record>) returns (pairs: seq<Pair>)
    ensures pairs == DuplicatePairs(v, ms)
  {
    var found := Accumulate.CollectPairs(DuplicatePair(v), Filter(HasId, ms));
    pairs := Sort(PairOrder, found);
  }

  method FindContradictionPairs(v: Vocabulary, ms: seq<Record>) returns (pairs: seq<Pair>)
    ensures pairs == ContradictionPairs(v, ms)
  {
    var found := Accumulate.CollectPairs(ContradictionPair(v), Filter(HasId, ms));
    pairs := Sort(PairOrder, found);
  }

  lemma OverlapSymmetric(a: set<string>, b: set<string>)
    ensures Overlap(a, b) == Overlap(b, a)
  {
    assert a + b == b + a && a * b == b * a;
  }

  lemma IdsSymmetric(a: Record, b: Record)
    ensures LowId(a, b) == LowId(b, a) && HighId(a, b) == HighId(b, a)
  {
    AtMostTotal(a.id, b.id);
    if AtMost(a.id, b.id) && AtMost(b.id, a.id) {
      AtMostAntisymmetric(a.id, b.id);
    }
  }

  lemma DuplicateSymmetric(v: Vocabulary, a: Record, b: Record)
    ensures DuplicatePair(v)(a, b) == DuplicatePair(v)(b, a)
  {
    OverlapSymmetric(TokensOf(v, a), TokensOf(v, b));
    assert Jaccard(v, a, b) == Jaccard(v, b, a);
    IdsSymmetric(a, b);
  }

  // Neither relation depends on which memory comes first.
  lemma DetectionSymmetric(v: Vocabulary)
    ensures Accumulate.Commutes(DuplicatePair(v)) && Accumulate.Commutes(ContradictionPair(v))
  {
    var duplicate, contradiction := DuplicatePair(v), ContradictionPair(v);
    forall a, b ensures duplicate(a, b) == duplicate(b, a) {
      DuplicateSymmetric(v, a, b);
    }
    forall a, b ensures contradiction(a, b) == contradiction(b, a) {
      ContradictionSymmetric(v, a, b);
    }
  }

  lemma OpposesSymmetric(v: Vocabulary, a: set<string>, b: set<string>)
    ensures Opposes(v, a, b) <==> Opposes(v, b, a)
  {
  }

  lemma ReasonSymmetric(v: Vocabulary, a: Record, b: Record)
    ensures ReasonOf(v, a, b) == ReasonOf(v, b, a)
  {
    OpposesSymmetric(v, TokensOf(v, a) * Toggles(v), TokensOf(v, b) * Toggles(v));
  }

  lemma SubjectSymmetric(v: Vocabulary, a: Record, b: Record)
    ensures CommonSubject(v, a, b) == CommonSubject(v, b, a)
  {
    OverlapSymmetric(SubjectTokens(v, a), SubjectTokens(v, b));
  }

  lemma ContradictionSymmetric(v: Vocabulary, a: Record, b: Record)
    ensures ContradictionPair(v)(a, b) == ContradictionPair(v)(b, a)
  {
    SubjectSymmetric(v, a, b);
    IdsSymmetric(a, b);
    ReasonSymmetric(v, a, b);
  }

  // The pairs found are the same whatever order the memories come in.
  lemma PairsPermuted(v: Vocabulary, a: seq<Record>, b: seq<Record>)
    requires Permuted(a, b)
    ensures Permuted(DuplicatePairs(v, a), DuplicatePairs(v, b))
    ensures Permuted(ContradictionPairs(v, a), ContradictionPairs(v, b))
  {
    DetectionSymmetric(v);
    var ua, ub := Filter(HasId, a), Filter(HasId, b);
    PermutedFilter(HasId, a, b);
    Accumulate.PairsPermuted(DuplicatePair(v), ua, ub);
    Accumulate.PairsPermuted(ContradictionPair(v), ua, ub);
    SortPermutes(PairOrder, Accumulate.Pairs(DuplicatePair(v), ua));
    SortPermutes(PairOrder, Accumulate.Pairs(DuplicatePair(v), ub));
    SortPermutes(PairOrder, Accumulate.Pairs(ContradictionPair(v), ua));
    SortPermutes(PairOrder, Accumulate.Pairs(ContradictionPair(v), ub));
  }

  // What is found comes from two of the usable memories.
  lemma PairSource(f: (Record, Record) -> seq<Pair>, ms: seq<Record>, p: Pair)
    requires p in Sort(PairOrder, Accumulate.Pairs(f, Filter(HasId, ms)))
    ensures exists a, b :: a in ms && b in ms && HasId(a) && HasId(b) && p in f(a, b)
  {
    var usable := Filter(HasId, ms);
    SortMembers(PairOrder, Accumulate.Pairs(f, usable));
    Accumulate.PairsMembers(f, usable, p);
    var i: nat, j: nat :| i < j < |usable| && p in f(usable[i], usable[j]);
    assert usable[i] in usable && usable[j] in usable;
  }

  // Two usable memories in this order, which f relates by p.
  ghost predicate Related(f: (Record, Record) -> seq<Pair>, usable: seq<Record>, p: Pair, i: nat, j: nat) {
    i < j < |usable| && p in f(usable[i], usable[j])
  }

  lemma DetectionExact(f: (Record, Record) -> seq<Pair>, ms: seq<Record>, p: Pair)
    ensures p in Sort(PairOrder, Accumulate.Pairs(f, Filter(HasId, ms))) <==>
              exists i: nat, j: nat :: Related(f, Filter(HasId, ms), p, i, j)
  {
    var usable := Filter(HasId, ms);
    SortMembers(PairOrder, Accumulate.Pairs(f, usable));
    Accumulate.PairsMembers(f, usable, p);
    if i: nat, j: nat :| i < j < |usable| && p in f(usable[i], usable[j]) {
      assert Related(f, usable, p, i, j);
    }
  }

  // Detection reports exactly the related pairs of memories with an id, each pair of positions considered once.
  lemma PairsExact(v: Vocabulary, ms: seq<Record>, p: Pair)
    ensures p in DuplicatePairs(v, ms) <==>
              exists i: nat, j: nat :: Related(DuplicatePair(v), Filter(HasId, ms), p, i, j)
    ensures p in ContradictionPairs(v, ms) <==>
              exists i: nat, j: nat :: Related(ContradictionPair(v), Filter(HasId, ms), p, i, j)
  {
    DetectionExact(DuplicatePair(v), ms, p);
    DetectionExact(ContradictionPair(v), ms, p);
  }

  lemma PairOrderIsPreorder()
    ensures Preorder(PairOrder)
  {
    OrderLaws();
  }

  // Pairs come with the most alike first; equally alike ones by their ids, and contradictions by negation
  // before those by toggled words.
  lemma PairsInOrder(f: (Record, Record) -> seq<Pair>, ms: seq<Record>, i: nat, j: nat)
    requires i < j < |Sort(PairOrder, Accumulate.Pairs(f, Filter(HasId, ms)))|
    ensures var pairs := Sort(PairOrder, Accumulate.Pairs(f, Filter(HasId, ms)));
            var p, q := pairs[i], pairs[j];
            && Weight(p) >= Weight(q)
            && (Weight(p) == Weight(q) ==> AtMost(p.left, q.left))
            && (Weight(p) == Weight(q) && p.left == q.left ==> AtMost(p.right, q.right))
            && (Weight(p) == Weight(q) && p.left == q.left && p.right == q.right && p.Contradiction? && q.Contradiction? ==>
                  (q.byNegation ==> p.byNegation))
  {
    OrderLaws();
    PairOrderIsPreorder();
    SortSorts(PairOrder, Accumulate.Pairs(f, Filter(HasId, ms)));
  }
}
