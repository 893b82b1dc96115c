/** The graph context: relations in vocabulary order, then co-occurrences, as many as the token budget takes. */
module GraphContext {
  import opened Seqs
  import opened Models
  import StoreModel
  import opened Extraction
  import opened SemanticGraph
  import opened Budget
  import opened Accumulate
  import GraphLaws

  function Header(ns: Namespace): string {
    "# Memory graph \U{2014} " + ns.AsKey()
  }

  function RelationLine(r: Relation): string {
    "- " + r.subject + " --" + r.rel + "--> " + r.target
  }

  function PairLine(r: Relation): string {
    "- " + r.subject + " ~ " + r.target + " (co_occurs)"
  }

  function Named(rel: string): Relation -> bool {
    (r: Relation) => r.rel == rel
  }

  function OfRelation(relations: seq<Relation>): string -> seq<Relation> {
    (rel: string) => Filter(Named(rel), relations)
  }

  // The relations grouped by the order of the vocabulary, stably within each group.
  function Grouped(vocabulary: seq<string>, relations: seq<Relation>): seq<Relation> {
    FlatMap(OfRelation(relations), vocabulary)
  }

  function RelationLines(relations: seq<Relation>): string -> seq<string> {
    (rel: string) => Map(RelationLine, Filter(Named(rel), relations))
  }

  // One group of lines per relation of the vocabulary, and the co-occurrences as the tail.
  function Groups(vocabulary: seq<string>, g: Graph): seq<seq<string>> {
    Map(RelationLines(g.relations), vocabulary) + [Map(PairLine, g.coOccurs)]
  }

  function Lines(vocabulary: seq<string>, g: Graph): seq<string> {
    FlatMap(Same, Groups(vocabulary, g))
  }

  function LimitsOf(budget: Option<int>): Limits {
    Limits(None, budget)
  }

  // The block of the longest prefix of the lines that fits; nothing when not even one line does.
  function Context(budget: Option<int>, header: string, lines: seq<string>): string {
    if RenderedCount(LimitsOf(budget), header, lines) == 0 then ""
    else Block(Rendered(LimitsOf(budget), header, lines))
  }

  // ----- Nothing is lost in grouping -----

  lemma {:induction false} GroupedCount(vocabulary: seq<string>, relations: seq<Relation>, r: Relation)
    requires NoDup(vocabulary)
    ensures multiset(Grouped(vocabulary, relations))[r] ==
            if r.rel in vocabulary then multiset(relations)[r] else 0
  {
    if vocabulary != [] {
      var init, rel := vocabulary[..|vocabulary| - 1], vocabulary[|vocabulary| - 1];
      NoDupPrefix(vocabulary);
      assert forall x :: x in vocabulary <==> x in init || x == rel;
      GroupedCount(init, relations, r);
      FilterMultiset(Named(rel), relations, r);
    }
  }

  // The relation lines are those of the grouped relations, in that order.
  lemma {:induction false} LinesFollowGroups(vocabulary: seq<string>, relations: seq<Relation>)
    ensures FlatMap(Same, Map(RelationLines(relations), vocabulary)) == Map(RelationLine, Grouped(vocabulary, relations))
  {
    if vocabulary != [] {
      var init, rel := vocabulary[..|vocabulary| - 1], vocabulary[|vocabulary| - 1];
      LinesFollowGroups(init, relations);
      assert Map(RelationLines(relations), vocabulary)[..|init|] == Map(RelationLines(relations), init);
    }
  }

  // Every relation of an extracted graph has a line: grouping only reorders them.
  lemma GroupingReorders(lang: Language, memories: seq<Record>, ns: Namespace)
    requires lang.rules == RULES
    ensures var relations := Extracted(lang, memories, ns).relations;
            Permuted(Grouped(SEMANTIC_RELATIONS, relations), relations)
  {
    var relations := Extracted(lang, memories, ns).relations;
    VocabularyDistinct();
    forall r ensures multiset(Grouped(SEMANTIC_RELATIONS, relations))[r] == multiset(relations)[r] {
      GroupedCount(SEMANTIC_RELATIONS, relations, r);
      if r in relations {
        InVocabulary(lang, memories, ns, r);
      }
    }
  }

  lemma InVocabulary(lang: Language, memories: seq<Record>, ns: Namespace, r: Relation)
    requires lang.rules == RULES && r in Extracted(lang, memories, ns).relations
    ensures r.rel in SEMANTIC_RELATIONS
  {
    GraphLaws.RelationsHaveSources(lang, memories, ns, r);
    var m, e :| GraphLaws.Asserts(lang, memories, ns, m, e) && r == RelationFor(m)(e);
    RelationsInVocabulary(lang, MemoryText(m), e);
  }

  lemma VocabularyDistinct()
    ensures NoDup(SEMANTIC_RELATIONS)
  {
  }

  // ----- The loops -----

  // The first k of all lines are emitted, and used counts them.
  ghost predicate Emitting(budget: Option<int>, header: string, all: seq<string>, k: nat, used: int) {
    Rendering(LimitsOf(budget), header, all, k) && used == EstimateTokens(header) + Sum(Tokens, all[..k])
  }

  // Emits the lines at position n of all, until one does not fit.
  method EmitAll(budget: Option<int>, ghost header: string, ghost all: seq<string>, ghost n: nat,
                 lines: seq<string>, usedBefore: int)
    returns (emitted: nat, used: int)
    requires Emitting(budget, header, all, n, usedBefore)
    requires n + |lines| <= |all| && forall i :: 0 <= i < |lines| ==> lines[i] == all[n + i]
    ensures emitted <= |lines| && Emitting(budget, header, all, n + emitted, used)
    ensures emitted < |lines| ==> RenderedCount(LimitsOf(budget), header, all) == n + emitted
  {
    emitted, used := 0, usedBefore;
    while emitted < |lines|
      invariant emitted <= |lines| && Emitting(budget, header, all, n + emitted, used)
    {
      RenderOne(LimitsOf(budget), header, all, n + emitted);
      assert lines[emitted] == all[n + emitted];
      if budget.Some? && used + EstimateTokens(lines[emitted]) > budget.value {
        return;
      }
      used := used + EstimateTokens(lines[emitted]);
      emitted := emitted + 1;
    }
  }

  method BucketByRelation(relations: seq<Relation>) returns (byRel: map<string, seq<Relation>>)
    ensures forall rel :: Filter(Named(rel), relations) == if rel in byRel then byRel[rel] else []
  {
    byRel := map[];
    for i := 0 to |relations|
      invariant forall rel :: Filter(Named(rel), relations[..i]) == if rel in byRel then byRel[rel] else []
    {
      assert relations[..i + 1][..i] == relations[..i];
      var rel := relations[i].rel;
      byRel := byRel[rel := (if rel in byRel then byRel[rel] else []) + [relations[i]]];
    }
    assert relations[..|relations|] == relations;
  }

  lemma {:induction false} GroupFollows(groups: seq<seq<string>>, i: nat)
    requires i < |groups|
    ensures var all, n := FlatMap(Same, groups), |FlatMap(Same, groups[..i])|;
            && n + |groups[i]| <= |all| && (forall j :: 0 <= j < |groups[i]| ==> groups[i][j] == all[n + j])
            && |FlatMap(Same, groups[..i + 1])| == n + |groups[i]|
  {
    assert groups[..i + 1][..i] == groups[..i];
    if i < |groups| - 1 {
      var init := groups[..|groups| - 1];
      GroupFollows(init, i);
      assert init[..i] == groups[..i] && init[..i + 1] == groups[..i + 1];
    } else {
      assert groups[..i + 1] == groups;
    }
  }

  // The nested loops: within a group in order, and no further group once a line does not fit.
  method EmitGroups(groups: seq<seq<string>>, budget: Option<int>, header: string) returns (rendered: nat)
    ensures rendered == RenderedCount(LimitsOf(budget), header, FlatMap(Same, groups))
  {
    ghost var all := FlatMap(Same, groups);
    var used := EstimateTokens(header);
    rendered := 0;
    for i := 0 to |groups|
      invariant rendered == |FlatMap(Same, groups[..i])|
      invariant Emitting(budget, header, all, rendered, used)
    {
      GroupFollows(groups, i);
      var emitted;
      emitted, used := EmitAll(budget, header, all, rendered, groups[i], used);
      rendered := rendered + emitted;
      if emitted < |groups[i]| {
        return;
      }
    }
    assert groups[..|groups|] == groups;
    RenderedAll(LimitsOf(budget), header, all);
  }

  lemma NextGroup(lines: string -> seq<string>, vocabulary: seq<string>, i: nat)
    requires i < |vocabulary|
    ensures Map(lines, vocabulary[..i + 1]) == Map(lines, vocabulary[..i]) + [lines(vocabulary[i])]
  {
  }

  method BuildGroups(vocabulary: seq<string>, g: Graph) returns (groups: seq<seq<string>>)
    ensures groups == Groups(vocabulary, g)
  {
    var byRel := BucketByRelation(g.relations);
    var lines := RelationLines(g.relations);
    groups := [];
    for i := 0 to |vocabulary|
      invariant groups == Map(lines, vocabulary[..i])
    {
      var bucket := if vocabulary[i] in byRel then byRel[vocabulary[i]] else [];
      NextGroup(lines, vocabulary, i);
      assert lines(vocabulary[i]) == Map(RelationLine, bucket);
      groups := groups + [Map(RelationLine, bucket)];
    }
    FullPrefix(vocabulary, |vocabulary|);
    groups := groups + [Map(PairLine, g.coOccurs)];
  }

  method BuildContext(vocabulary: seq<string>, budget: Option<int>, ns: Namespace, g: Graph)
    returns (context: string, rendered: nat)
    ensures var lines := Lines(vocabulary, g);
            && context == Context(budget, Header(ns), lines)
            && rendered == RenderedCount(LimitsOf(budget), Header(ns), lines)
  {
    var groups := BuildGroups(vocabulary, g);
    rendered := EmitGroups(groups, budget, Header(ns));
    context := if rendered == 0 then "" else Block([Header(ns)] + FlatMap(Same, groups)[..rendered]);
  }

  // ----- The budget -----

  // With k rendered lines the estimate of the context exceeds the budget by at most k / 4, rounded up.
  lemma TrueBound(budget: int, header: string, lines: seq<string>)
    ensures var text, k := Context(Some(budget), header, lines), RenderedCount(LimitsOf(Some(budget)), header, lines);
            text == "" || EstimateTokens(text) <= budget + (k + 3) / 4
  {
    var limits := LimitsOf(Some(budget));
    if RenderedCount(limits, header, lines) > 0 {
      TokensNonNegative(lines[..RenderedCount(limits, header, lines)]);
      RenderedEstimate(limits, header, lines);
    }
  }

  // A context that renders anything had room for its header; one whose header exceeds the budget is empty.
  lemma HeaderMustFit(budget: int, header: string, lines: seq<string>)
    requires EstimateTokens(header) > budget
    ensures Context(Some(budget), header, lines) == ""
  {
    TokensNonNegative(lines[..RenderedCount(LimitsOf(Some(budget)), header, lines)]);
  }

  // The estimate of the context stays within the budget exactly when nothing is rendered and the budget is
  // not negative, or the newlines, less the white space at the end, fit into what the lines leave of it.
  lemma BudgetIff(budget: int, ns: Namespace, lines: seq<string>)
    ensures var limits := LimitsOf(Some(budget));
            var rendered, k := Rendered(limits, Header(ns), lines), RenderedCount(limits, Header(ns), lines);
            EstimateTokens(Context(Some(budget), Header(ns), lines)) <= budget <==>
            if k == 0 then 0 <= budget else NewlinesFit(budget, rendered, k - TailSpace(rendered))
  {
    HeaderBegins(ns);
    RenderedWithinIff(LimitsOf(Some(budget)), Header(ns), lines);
  }

  // The lines are those of the grouped relations and then of the pairs.
  lemma LinesAre(vocabulary: seq<string>, g: Graph)
    ensures Lines(vocabulary, g) == Map(RelationLine, Grouped(vocabulary, g.relations)) + Map(PairLine, g.coOccurs)
  {
    LinesFollowGroups(vocabulary, g.relations);
    assert Groups(vocabulary, g)[..|vocabulary|] == Map(RelationLines(g.relations), vocabulary);
  }

  lemma {:induction false} GroupedAreGiven(vocabulary: seq<string>, relations: seq<Relation>)
    ensures forall r :: r in Grouped(vocabulary, relations) ==> r in relations
  {
    if vocabulary != [] {
      GroupedAreGiven(vocabulary[..|vocabulary| - 1], relations);
    }
  }

  // Lines end in what they name last, and pairs in a parenthesis.
  lemma LinesEnd(vocabulary: seq<string>, g: Graph)
    requires forall r :: r in g.relations ==> Ends(r.target)
    ensures forall i :: 0 <= i < |Lines(vocabulary, g)| ==> Ends(Lines(vocabulary, g)[i])
  {
    var grouped := Grouped(vocabulary, g.relations);
    LinesAre(vocabulary, g);
    GroupedAreGiven(vocabulary, g.relations);
    forall i | 0 <= i < |grouped| ensures Ends(RelationLine(grouped[i])) {
      RelationLineEnds(grouped[i]);
    }
    forall r: Relation ensures Ends(PairLine(r)) {
      PairLineEnds(r);
    }
  }

  lemma RelationLineEnds(r: Relation)
    requires Ends(r.target)
    ensures Ends(RelationLine(r))
  {
    var line := RelationLine(r);
    assert line[|line| - 1] == r.target[|r.target| - 1];
  }

  lemma PairLineEnds(r: Relation)
    ensures Ends(PairLine(r))
  {
    var line := PairLine(r);
    assert line[|line| - 1] == ')';
  }

  // For a graph whose names do not end in white space: exactly when the newlines fit.
  lemma GraphBudgetIff(vocabulary: seq<string>, ns: Namespace, g: Graph, budget: int)
    requires forall r :: r in g.relations ==> Ends(r.target)
    ensures var limits, lines := LimitsOf(Some(budget)), Lines(vocabulary, g);
            var rendered, k := Rendered(limits, Header(ns), lines), RenderedCount(limits, Header(ns), lines);
            EstimateTokens(Context(Some(budget), Header(ns), lines)) <= budget <==>
            if k == 0 then 0 <= budget else NewlinesFit(budget, rendered, k)
  {
    var limits, lines := LimitsOf(Some(budget)), Lines(vocabulary, g);
    BudgetIff(budget, ns, lines);
    if RenderedCount(limits, Header(ns), lines) > 0 {
      LinesEnd(vocabulary, g);
      NoTailSpace(Rendered(limits, Header(ns), lines));
    }
  }

  // ----- The bound is attained -----

  // The estimates of the header and of one line for each relation.
  function Needed(ns: Namespace, relations: seq<Relation>): int {
    EstimateTokens(Header(ns)) + Sum(Tokens, Map(RelationLine, relations))
  }

  // A graph of relations alone whose header and lines need no rounding renders all of them in a budget
  // that they fill, and exceeds it by a quarter of their number, rounded up.
  lemma WholeGraphExceeds(vocabulary: seq<string>, ns: Namespace, g: Graph, budget: int)
    requires g.coOccurs == [] && g.relations != [] && Permuted(Grouped(vocabulary, g.relations), g.relations)
    requires Whole(Header(ns)) && forall r :: r in g.relations ==> Whole(RelationLine(r)) && Ends(r.target)
    requires budget == Needed(ns, g.relations)
    ensures var lines, k := Lines(vocabulary, g), |g.relations|;
            && RenderedCount(LimitsOf(Some(budget)), Header(ns), lines) == k
            && EstimateTokens(Context(Some(budget), Header(ns), lines)) == budget + (k + 3) / 4
  {
    var grouped := Grouped(vocabulary, g.relations);
    RelationsOnly(vocabulary, g);
    PermutedLines(grouped, g.relations);
    LinesExceed(ns, Map(RelationLine, grouped), budget);
  }

  lemma RelationsOnly(vocabulary: seq<string>, g: Graph)
    requires g.coOccurs == []
    ensures Lines(vocabulary, g) == Map(RelationLine, Grouped(vocabulary, g.relations))
  {
    LinesAre(vocabulary, g);
    assert Map(PairLine, g.coOccurs) == [];
  }

  lemma LinesExceed(ns: Namespace, lines: seq<string>, budget: int)
    requires lines != [] && Whole(Header(ns)) && forall i :: 0 <= i < |lines| ==> Whole(lines[i]) && Ends(lines[i])
    requires budget == EstimateTokens(Header(ns)) + Sum(Tokens, lines)
    ensures RenderedCount(LimitsOf(Some(budget)), Header(ns), lines) == |lines|
    ensures EstimateTokens(Context(Some(budget), Header(ns), lines)) == budget + (|lines| + 3) / 4
  {
    HeaderBegins(ns);
    WholeLinesExceed(LimitsOf(Some(budget)), Header(ns), lines);
  }

  lemma HeaderBegins(ns: Namespace)
    ensures Begins(Header(ns))
  {
    assert Header(ns)[0] == '#';
  }

  lemma PermutedLines(a: seq<Relation>, b: seq<Relation>)
    requires Permuted(a, b) && forall r :: r in b ==> Whole(RelationLine(r)) && Ends(r.target)
    ensures |a| == |b| && Sum(Tokens, Map(RelationLine, a)) == Sum(Tokens, Map(RelationLine, b))
    ensures forall i :: 0 <= i < |a| ==> Whole(Map(RelationLine, a)[i]) && Ends(Map(RelationLine, a)[i])
  {
    PermutedMembers(a, b);
    MapPermuted(RelationLine, a, b);
    SumPermuted(Tokens, Map(RelationLine, a), Map(RelationLine, b));
    forall i | 0 <= i < |a| ensures Whole(RelationLine(a[i])) && Ends(RelationLine(a[i])) {
      assert a[i] in a;
      RelationLineEnds(a[i]);
    }
  }

  // Every extracted graph of this kind does so.
  lemma ExtractedExceeds(lang: Language, memories: seq<Record>, ns: Namespace, budget: int)
    requires lang.rules == RULES && Whole(Header(ns))
    requires var g := Extracted(lang, memories, ns);
             && g.coOccurs == [] && g.relations != [] && budget == Needed(ns, g.relations)
             && forall r :: r in g.relations ==> Whole(RelationLine(r)) && Ends(r.target)
    ensures var g := Extracted(lang, memories, ns);
            var lines, k := Lines(SEMANTIC_RELATIONS, g), |g.relations|;
            && RenderedCount(LimitsOf(Some(budget)), Header(ns), lines) == k
            && EstimateTokens(Context(Some(budget), Header(ns), lines)) == budget + (k + 3) / 4
  {
    GroupingReorders(lang, memories, ns);
    WholeGraphExceeds(SEMANTIC_RELATIONS, ns, Extracted(lang, memories, ns), budget);
  }

  // The relation that a memory stating one edge contributes.
  function Stated(lang: Language): Record -> Relation {
    (m: Record) => if |EdgesOf(lang, m)| == 1 then RelationFor(m)(EdgesOf(lang, m)[0]) else Owned(0)
  }

  // Memories of one namespace that state one edge each, no two the same triple, give the graph of exactly
  // those relations.
  lemma StatedGraph(lang: Language, memories: seq<Record>, ns: Namespace)
    requires forall m :: m in memories ==> m.namespace == ns && |EdgesOf(lang, m)| == 1
    requires NoDup(Map(TripleOf, Map(Stated(lang), memories)))
    ensures var g := Extracted(lang, memories, ns);
            g.relations == Map(Stated(lang), memories) && g.coOccurs == []
  {
    FilterAll(StoreModel.InNamespace(ns), memories);
    forall m | m in memories ensures RelationsOf(lang)(m) == [Stated(lang)(m)] {
      assert EdgesOf(lang, m) == [EdgesOf(lang, m)[0]];
    }
    FlatMapSingles(RelationsOf(lang), Stated(lang), memories);
    AddDistinct(TripleOf, Map(Stated(lang), memories));
    FlatMapNone(CoOccursOf(lang), memories);
  }

  // Any k such memories whose lines need no rounding give a context that exceeds its budget by a quarter of k,
  // rounded up.
  lemma StatedExceeds(lang: Language, memories: seq<Record>, ns: Namespace, budget: int)
    requires lang.rules == RULES && memories != [] && Whole(Header(ns))
    requires forall m :: m in memories ==>
                           && m.namespace == ns && |EdgesOf(lang, m)| == 1
                           && Whole(RelationLine(Stated(lang)(m))) && Ends(Stated(lang)(m).target)
    requires NoDup(Map(TripleOf, Map(Stated(lang), memories)))
    requires budget == Needed(ns, Map(Stated(lang), memories))
    ensures var lines, k := Lines(SEMANTIC_RELATIONS, Extracted(lang, memories, ns)), |memories|;
            && RenderedCount(LimitsOf(Some(budget)), Header(ns), lines) == k
            && EstimateTokens(Context(Some(budget), Header(ns), lines)) == budget + (k + 3) / 4
  {
    StatedGraph(lang, memories, ns);
    forall r | r in Map(Stated(lang), memories) ensures Whole(RelationLine(r)) && Ends(r.target) {
      MapMembers(Stated(lang), memories, r);
    }
    ExtractedExceeds(lang, memories, ns, budget);
  }

  // What the k-th owner owns.
  function Owned(i: nat): Relation {
    Relation("owns", "ab", seq(4 * i + 1, _ => 'c'), "project", "topic", "m", "t", "r", 0.85, "owns:en")
  }

  function Owner(k: nat): Graph {
    Graph([], seq(k, i requires 0 <= i => Owned(i)), [])
  }

  lemma OwnedIsWhole(k: nat, r: Relation)
    requires r in Owner(k).relations
    ensures r.rel == "owns" && Whole(RelationLine(r)) && Ends(r.target)
  {
    var i :| 0 <= i < k && Owner(k).relations[i] == r;
    assert r == Owned(i);
    assert |RelationLine(r)| == 4 * i + 16;
  }

  lemma OwnedDiffer(k: nat)
    ensures NoDup(Map(TripleOf, Owner(k).relations))
  {
    var triples := Map(TripleOf, Owner(k).relations);
    forall i, j | 0 <= i < j < k ensures triples[i] != triples[j] {
      assert |Owned(i).target| != |Owned(j).target|;
    }
  }

  lemma OwnedGrouped(k: nat)
    ensures Permuted(Grouped(SEMANTIC_RELATIONS, Owner(k).relations), Owner(k).relations)
  {
    var relations := Owner(k).relations;
    VocabularyDistinct();
    forall r ensures multiset(Grouped(SEMANTIC_RELATIONS, relations))[r] == multiset(relations)[r] {
      GroupedCount(SEMANTIC_RELATIONS, relations, r);
      if r in relations {
        OwnedIsWhole(k, r);
      }
    }
  }

  // For every k there is a graph of k relations, each triple once, that does so.
  lemma BoundAttained(k: nat)
    requires k > 0
    ensures var relations := Owner(k).relations;
            var budget, lines := Needed(OWNING, relations), Lines(SEMANTIC_RELATIONS, Owner(k));
            && |relations| == k && NoDup(Map(TripleOf, relations))
            && RenderedCount(LimitsOf(Some(budget)), Header(OWNING), lines) == k
            && EstimateTokens(Context(Some(budget), Header(OWNING), lines)) == budget + (k + 3) / 4
  {
    var g := Owner(k);
    HeaderIsWhole();
    OwnedDiffer(k);
    OwnedGrouped(k);
    forall r | r in g.relations ensures Whole(RelationLine(r)) && Ends(r.target) {
      OwnedIsWhole(k, r);
    }
    WholeGraphExceeds(SEMANTIC_RELATIONS, OWNING, g, Needed(OWNING, g.relations));
  }

  const OWNING := Namespace("abcde", "f")

  lemma HeaderIsWhole()
    ensures Whole(Header(OWNING))
  {
    assert |Header(OWNING)| == 24;
  }
}
