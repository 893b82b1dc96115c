/** Results about the accumulated graph: distinctness, registered endpoints, scope, growth and reports. */
module GraphLaws {
  import opened Seqs
  import opened Sorting
  import opened Text
  import opened Models
  import opened StoreModel
  import opened Extraction
  import opened Accumulate
  import opened SemanticGraph

  // ----- Distinctness and growth -----

  // Triples, entity keys and co-occurring pairs are each distinct.
  lemma GraphIsDistinct(lang: Language, memories: seq<Record>, ns: Namespace)
    ensures var g := Extracted(lang, memories, ns);
            && NoDup(Map(KeyOf, g.entities))
            && NoDup(Map(TripleOf, g.relations))
            && NoDup(Map(TripleOf, g.coOccurs))
  {
    var own := Filter(InNamespace(ns), memories);
    AddAllKeys(KeyOf, [], FlatMap(EntitiesOf(lang), own));
    AddAllKeys(TripleOf, [], FlatMap(RelationsOf(lang), own));
    AddAllKeys(TripleOf, [], FlatMap(CoOccursOf(lang), own));
  }

  // More memories only extend the graph: what earlier ones gave stays a prefix.
  lemma GraphGrows(lang: Language, xs: seq<Record>, ys: seq<Record>, ns: Namespace)
    ensures var small, large := Extracted(lang, xs, ns), Extracted(lang, xs + ys, ns);
            && small.entities <= large.entities
            && small.relations <= large.relations
            && small.coOccurs <= large.coOccurs
  {
    FilterAppend(InNamespace(ns), xs, ys);
    var a, b := Filter(InNamespace(ns), xs), Filter(InNamespace(ns), ys);
    Extends(KeyOf, EntitiesOf(lang), a, b);
    Extends(TripleOf, RelationsOf(lang), a, b);
    Extends(TripleOf, CoOccursOf(lang), a, b);
  }

  lemma Extends<A, T, K>(key: T -> K, f: A -> seq<T>, a: seq<A>, b: seq<A>)
    ensures AddAll(key, [], FlatMap(f, a)) <= AddAll(key, [], FlatMap(f, a + b))
  {
    FlatMapAppend(f, a, b);
    AddAllAppend(key, [], FlatMap(f, a), FlatMap(f, b));
    AddAllKeys(key, AddAll(key, [], FlatMap(f, a)), FlatMap(f, b));
  }

  // A memory of another namespace changes nothing, wherever it stands.
  lemma OutsidersChangeNothing(lang: Language, xs: seq<Record>, m: Record, ys: seq<Record>, ns: Namespace)
    requires m.namespace != ns
    ensures Extracted(lang, xs + [m] + ys, ns) == Extracted(lang, xs + ys, ns)
  {
    FilterAppend(InNamespace(ns), xs + [m], ys);
    FilterAppend(InNamespace(ns), xs, [m]);
    FilterAppend(InNamespace(ns), xs, ys);
    FilterNone(InNamespace(ns), [m]);
  }

  // ----- Where relations and entities come from -----

  ghost predicate Asserts(lang: Language, memories: seq<Record>, ns: Namespace, m: Record, e: Edge) {
    m in memories && m.namespace == ns && e in EdgesOf(lang, m)
  }

  lemma RelationContributed(lang: Language, memories: seq<Record>, ns: Namespace, r: Relation)
    ensures r in FlatMap(RelationsOf(lang), Filter(InNamespace(ns), memories)) <==>
              exists m, e :: Asserts(lang, memories, ns, m, e) && r == RelationFor(m)(e)
  {
    var own := Filter(InNamespace(ns), memories);
    FlatMapMembers(RelationsOf(lang), own, r);
    forall m | m in own
      ensures r in RelationsOf(lang)(m) <==> exists e :: e in EdgesOf(lang, m) && r == RelationFor(m)(e)
    {
      MapMembers(RelationFor(m), EdgesOf(lang, m), r);
    }
    if m, e :| Asserts(lang, memories, ns, m, e) && r == RelationFor(m)(e) {
      assert m in own && r in RelationsOf(lang)(m);
    }
  }

  // A triple is in the graph exactly when some memory of the namespace asserts it, and each relation
  // carries the provenance of such a memory.
  lemma TriplesExact(lang: Language, memories: seq<Record>, ns: Namespace, t: Triple)
    ensures t in Map(TripleOf, Extracted(lang, memories, ns).relations) <==>
              exists m, e :: Asserts(lang, memories, ns, m, e) && t == Triple(e.rel, e.subject, e.target)
  {
    var given := FlatMap(RelationsOf(lang), Filter(InNamespace(ns), memories));
    AddAllKeys(TripleOf, [], given);
    MapMembers(TripleOf, given, t);
    if m, e :| Asserts(lang, memories, ns, m, e) && t == Triple(e.rel, e.subject, e.target) {
      RelationContributed(lang, memories, ns, RelationFor(m)(e));
      assert RelationFor(m)(e) in given;
    }
    if r :| r in given && t == TripleOf(r) {
      RelationContributed(lang, memories, ns, r);
      var m, e :| Asserts(lang, memories, ns, m, e) && r == RelationFor(m)(e);
    }
  }

  lemma RelationsHaveSources(lang: Language, memories: seq<Record>, ns: Namespace, r: Relation)
    requires r in Extracted(lang, memories, ns).relations
    ensures exists m, e :: Asserts(lang, memories, ns, m, e) && r == RelationFor(m)(e)
  {
    AddAllMembers(TripleOf, [], FlatMap(RelationsOf(lang), Filter(InNamespace(ns), memories)), r);
    RelationContributed(lang, memories, ns, r);
  }

  // Of equal triples the first asserted one is kept, with its provenance.
  lemma FirstAssertionKept(lang: Language, memories: seq<Record>, ns: Namespace, r: Relation)
    requires r in Extracted(lang, memories, ns).relations
    ensures FirstOfKey(TripleOf, FlatMap(RelationsOf(lang), Filter(InNamespace(ns), memories)), r)
  {
    FirstIsKept(TripleOf, FlatMap(RelationsOf(lang), Filter(InNamespace(ns), memories)), r);
  }

  lemma EntityRegistered(lang: Language, memories: seq<Record>, ns: Namespace, m: Record, e: Entity)
    requires m in memories && m.namespace == ns && e in EntitiesOf(lang)(m)
    ensures KeyOf(e) in Map(KeyOf, Extracted(lang, memories, ns).entities)
  {
    var own := Filter(InNamespace(ns), memories);
    var given := FlatMap(EntitiesOf(lang), own);
    AddAllKeys(KeyOf, [], given);
    FlatMapMembers(EntitiesOf(lang), own, e);
    MapMembers(KeyOf, given, KeyOf(e));
  }

  // Both endpoints of every relation are registered entities, under the kinds the relation gives them.
  lemma EndpointsRegistered(lang: Language, memories: seq<Record>, ns: Namespace, r: Relation)
    requires r in Extracted(lang, memories, ns).relations
    ensures var keys := Map(KeyOf, Extracted(lang, memories, ns).entities);
            EntityId(r.subjectKind, r.subject) in keys && EntityId(r.targetKind, r.target) in keys
  {
    RelationsHaveSources(lang, memories, ns, r);
    var m, e :| Asserts(lang, memories, ns, m, e) && r == RelationFor(m)(e);
    var ends := Endpoints(m)(e);
    FlatMapMembers(Endpoints(m), EdgesOf(lang, m), ends[0]);
    FlatMapMembers(Endpoints(m), EdgesOf(lang, m), ends[1]);
    EntityRegistered(lang, memories, ns, m, ends[0]);
    EntityRegistered(lang, memories, ns, m, ends[1]);
  }

  // ----- Co-occurrences -----

  // A co-occurrence pairs two different names that the scan found in one memory without relations, and
  // both are registered entities.
  lemma CoOccurrencesLaws(lang: Language, memories: seq<Record>, ns: Namespace, r: Relation)
    requires r in Extracted(lang, memories, ns).coOccurs
    ensures r.rel == CO_OCCURS && r.subject != r.target
    ensures exists m :: m in memories && m.namespace == ns && m.id == r.sourceId && EdgesOf(lang, m) == []
    ensures var keys := Map(KeyOf, Extracted(lang, memories, ns).entities);
            EntityId(r.subjectKind, r.subject) in keys && EntityId(r.targetKind, r.target) in keys
  {
    var own := Filter(InNamespace(ns), memories);
    AddAllMembers(TripleOf, [], FlatMap(CoOccursOf(lang), own), r);
    FlatMapMembers(CoOccursOf(lang), own, r);
    var m :| m in own && r in CoOccursOf(lang)(m);
    var a, b := HitsPaired(lang, m, r);
    HitRegistered(lang, memories, ns, m, a);
    HitRegistered(lang, memories, ns, m, b);
  }

  lemma HitsPaired(lang: Language, m: Record, r: Relation) returns (a: Hit, b: Hit)
    requires r in CoOccursOf(lang)(m)
    ensures EdgesOf(lang, m) == [] && r == PairFor(m, a, b) && a.name != b.name
    ensures a in Scanned(lang, MemoryText(m)) && b in Scanned(lang, MemoryText(m))
  {
    var hits := Scanned(lang, MemoryText(m));
    PairsMembers(Paired(m), hits, r);
    var i: nat, k: nat :| i < k < |hits| && r in Paired(m)(hits[i], hits[k]);
    AddAllKeys(HitName, [], Hits(lang, MemoryText(m)));
    assert Map(HitName, hits)[i] != Map(HitName, hits)[k];
    a, b := hits[i], hits[k];
  }

  lemma HitRegistered(lang: Language, memories: seq<Record>, ns: Namespace, m: Record, h: Hit)
    requires m in memories && m.namespace == ns && EdgesOf(lang, m) == [] && h in Scanned(lang, MemoryText(m))
    ensures EntityId(h.kind, h.name) in Map(KeyOf, Extracted(lang, memories, ns).entities)
  {
    MapMembers(HitEntity(m), Scanned(lang, MemoryText(m)), HitEntity(m)(h));
    EntityRegistered(lang, memories, ns, m, HitEntity(m)(h));
  }

  // ----- Warnings -----

  // How often each triple occurs, and those that occur more than once: the duplicate warnings.
  method CountTriples(relations: seq<Relation>) returns (seen: map<Triple, nat>, duplicates: set<Triple>)
    ensures forall t :: (if t in seen then seen[t] else 0) == multiset(Map(TripleOf, relations))[t]
    ensures forall t :: t in duplicates <==> multiset(Map(TripleOf, relations))[t] > 1
  {
    seen := map[];
    for i := 0 to |relations|
      invariant forall t :: (if t in seen then seen[t] else 0) == multiset(Map(TripleOf, relations[..i]))[t]
    {
      var t := TripleOf(relations[i]);
      assert Map(TripleOf, relations[..i + 1]) == Map(TripleOf, relations[..i]) + [t];
      seen := seen[t := (if t in seen then seen[t] else 0) + 1];
    }
    assert relations[..|relations|] == relations;
    duplicates := set t | t in seen && seen[t] > 1;
  }

  // The graph's own relations never cause a duplicate warning.
  lemma NeverDuplicate(lang: Language, memories: seq<Record>, ns: Namespace, t: Triple)
    ensures multiset(Map(TripleOf, Extracted(lang, memories, ns).relations))[t] <= 1
  {
    GraphIsDistinct(lang, memories, ns);
    NoDupCount(Map(TripleOf, Extracted(lang, memories, ns).relations), t);
  }

  // ----- The temporal report -----

  // How the report shows names, and when a memory was created: None for one that it does not find.
  datatype View = View(safe: string -> string, createdAt: string -> Option<string>)

  datatype TemporalRow = TemporalRow(
    handle: nat, rel: string, subject: string, target: string,
    validFrom: Option<string>, validUntil: Option<string>, current: bool, confidence: real)

  // A relation is valid from its own memory's creation to that of the memory asserting it next.
  function RowFor(view: View, r: Relation, next: Option<Relation>, handle: nat): TemporalRow {
    TemporalRow(handle, r.rel, view.safe(r.subject), view.safe(r.target), view.createdAt(r.sourceId),
                if next.Some? then view.createdAt(next.value.sourceId) else None, next.None?, r.confidence)
  }

  function HasTriple(t: Triple): Relation -> bool {
    (r: Relation) => TripleOf(r) == t
  }

  predicate BySource(a: Relation, b: Relation) {
    Less(a.sourceId, b.sourceId) || (a.sourceId == b.sourceId && AtMost(a.sourceTitle, b.sourceTitle))
  }

  function NextOf(ordered: seq<Relation>, n: nat): Option<Relation> {
    if n < |ordered| then Some(ordered[n]) else None
  }

  // One row per relation of a group, numbered from rows before it; only the last in source order is current.
  function RowsFrom(view: View, ordered: seq<Relation>, n: nat, currentOnly: bool, numbered: nat): seq<TemporalRow>
    requires n <= |ordered|
  {
    if n == 0 then []
    else
      var before, next := RowsFrom(view, ordered, n - 1, currentOnly, numbered), NextOf(ordered, n);
      before
      + if currentOnly && next.Some? then [] else [RowFor(view, ordered[n - 1], next, numbered + |before| + 1)]
  }

  function GroupRows(view: View, relations: seq<Relation>, t: Triple, currentOnly: bool, numbered: nat): seq<TemporalRow> {
    var ordered := Sort(BySource, Filter(HasTriple(t), relations));
    RowsFrom(view, ordered, |ordered|, currentOnly, numbered)
  }

  function RowsOfGroups(view: View, relations: seq<Relation>, order: seq<Triple>, currentOnly: bool): seq<TemporalRow> {
    if order == [] then []
    else
      var before := RowsOfGroups(view, relations, order[..|order| - 1], currentOnly);
      before + GroupRows(view, relations, order[|order| - 1], currentOnly, |before|)
  }

  // The groups in order of first appearance.
  function TemporalRows(view: View, relations: seq<Relation>, currentOnly: bool): seq<TemporalRow> {
    RowsOfGroups(view, relations, AddAll(Same, [], Map(TripleOf, relations)), currentOnly)
  }

  method TemporalReport(view: View, relations: seq<Relation>, currentOnly: bool) returns (rows: seq<TemporalRow>)
    ensures rows == TemporalRows(view, relations, currentOnly)
  {
    var order, grouped := GroupByTriple(relations);
    rows := [];
    for i := 0 to |order|
      invariant rows == RowsOfGroups(view, relations, order[..i], currentOnly)
    {
      OneMoreGroup(view, relations, order, currentOnly, i);
      rows := AppendGroup(view, Sort(BySource, grouped[order[i]]), currentOnly, rows);
    }
    FullPrefix(order, |order|);
  }

  // grouped.get(t, [])
  function Bucket(grouped: map<Triple, seq<Relation>>, t: Triple): seq<Relation> {
    if t in grouped then grouped[t] else []
  }

  ghost predicate Buckets(relations: seq<Relation>, grouped: map<Triple, seq<Relation>>) {
    forall t :: Bucket(grouped, t) == Filter(HasTriple(t), relations)
  }

  // The keys in insertion order, and the relations of each key.
  ghost predicate Gathered(relations: seq<Relation>, order: seq<Triple>, grouped: map<Triple, seq<Relation>>) {
    && order == AddAll(Same, [], Map(TripleOf, relations))
    && (forall t :: t in grouped <==> t in order)
    && Buckets(relations, grouped)
  }

  // The grouping dictionary, with its keys in insertion order.
  method GroupByTriple(relations: seq<Relation>) returns (order: seq<Triple>, grouped: map<Triple, seq<Relation>>)
    ensures order == AddAll(Same, [], Map(TripleOf, relations))
    ensures forall i :: 0 <= i < |order| ==>
                          order[i] in grouped && grouped[order[i]] == Filter(HasTriple(order[i]), relations)
  {
    order, grouped := [], map[];
    NothingGathered();
    for i := 0 to |relations|
      invariant Gathered(relations[..i], order, grouped)
    {
      var t := TripleOf(relations[i]);
      NextGathered(relations, i, order, grouped);
      order := if t in grouped then order else order + [t];
      grouped := grouped[t := Bucket(grouped, t) + [relations[i]]];
    }
    FullPrefix(relations, |relations|);
    EachIsGathered(relations, order, grouped);
  }

  lemma EachIsGathered(relations: seq<Relation>, order: seq<Triple>, grouped: map<Triple, seq<Relation>>)
    requires Gathered(relations, order, grouped)
    ensures forall i :: 0 <= i < |order| ==>
                          order[i] in grouped && grouped[order[i]] == Filter(HasTriple(order[i]), relations)
  {
    forall i | 0 <= i < |order|
      ensures order[i] in grouped && grouped[order[i]] == Filter(HasTriple(order[i]), relations)
    {
      assert order[i] in order;
      assert Bucket(grouped, order[i]) == grouped[order[i]];
    }
  }

  lemma NothingGathered()
    ensures Gathered([], [], map[])
  {
    assert Map(TripleOf, []) == [];
  }

  lemma NextGathered(relations: seq<Relation>, i: nat, order: seq<Triple>, grouped: map<Triple, seq<Relation>>)
    requires i < |relations| && Gathered(relations[..i], order, grouped)
    ensures var t := TripleOf(relations[i]);
            Gathered(relations[..i + 1], if t in grouped then order else order + [t],
                     grouped[t := Bucket(grouped, t) + [relations[i]]])
  {
    PrefixNext(relations, i);
    OneMoreTriple(relations[..i], relations[i], order, grouped);
  }

  lemma OneMoreTriple(relations: seq<Relation>, r: Relation, order: seq<Triple>, grouped: map<Triple, seq<Relation>>)
    requires Gathered(relations, order, grouped)
    ensures var t := TripleOf(r);
            Gathered(relations + [r], if t in grouped then order else order + [t], grouped[t := Bucket(grouped, t) + [r]])
  {
    NextTriple(relations, r);
    NextBucket(relations, r, grouped);
  }

  lemma NextBucket(relations: seq<Relation>, r: Relation, grouped: map<Triple, seq<Relation>>)
    requires Buckets(relations, grouped)
    ensures var t := TripleOf(r);
            Buckets(relations + [r], grouped[t := Bucket(grouped, t) + [r]])
  {
    var t := TripleOf(r);
    var after := grouped[t := Bucket(grouped, t) + [r]];
    forall u ensures Bucket(after, u) == Filter(HasTriple(u), relations + [r]) {
      FilterNext(HasTriple(u), relations, r);
      assert Bucket(grouped, u) == Filter(HasTriple(u), relations);
    }
  }

  lemma NextTriple(relations: seq<Relation>, r: Relation)
    ensures var order, t := AddAll(Same, [], Map(TripleOf, relations)), TripleOf(r);
            AddAll(Same, [], Map(TripleOf, relations + [r])) == if t in order then order else order + [t]
  {
    var order := AddAll(Same, [], Map(TripleOf, relations));
    assert Map(TripleOf, relations + [r])[..|relations|] == Map(TripleOf, relations);
    assert Map(Same, order) == order;
  }

  method AppendGroup(view: View, ordered: seq<Relation>, currentOnly: bool, before: seq<TemporalRow>)
    returns (rows: seq<TemporalRow>)
    ensures rows == before + RowsFrom(view, ordered, |ordered|, currentOnly, |before|)
  {
    rows := before;
    for i := 0 to |ordered|
      invariant rows == before + RowsFrom(view, ordered, i, currentOnly, |before|)
    {
      var next := if i + 1 < |ordered| then Some(ordered[i + 1]) else None;
      var current := next == None;
      if currentOnly && !current {
        continue;
      }
      rows := rows + [RowFor(view, ordered[i], next, |rows| + 1)];
    }
  }

  // Every relation on its own, in order.
  function CurrentRows(view: View, relations: seq<Relation>): (rows: seq<TemporalRow>)
    ensures |rows| == |relations|
  {
    seq(|relations|, i requires 0 <= i < |relations| => RowFor(view, relations[i], None, i + 1))
  }

  lemma {:induction false} OneOfTriple(relations: seq<Relation>, i: nat)
    requires NoDup(Map(TripleOf, relations)) && i < |relations|
    ensures Filter(HasTriple(TripleOf(relations[i])), relations) == [relations[i]]
  {
    var n := |relations| - 1;
    var t, init := TripleOf(relations[i]), relations[..n];
    assert Map(TripleOf, relations)[..n] == Map(TripleOf, init);
    NoDupPrefix(Map(TripleOf, relations));
    if i < n {
      OneOfTriple(init, i);
      assert Map(TripleOf, init)[i] == t;
    } else {
      forall r | r in init ensures !HasTriple(t)(r) {
        MapMembers(TripleOf, init, TripleOf(r));
      }
      FilterNone(HasTriple(t), init);
    }
  }

  lemma SingleRow(view: View, relations: seq<Relation>, r: Relation, currentOnly: bool, numbered: nat)
    requires Filter(HasTriple(TripleOf(r)), relations) == [r]
    ensures GroupRows(view, relations, TripleOf(r), currentOnly, numbered) == [RowFor(view, r, None, numbered + 1)]
  {
    assert Sort(BySource, [r]) == [r];
    assert RowsFrom(view, [r], 0, currentOnly, numbered) == [];
  }

  // For an extracted graph the temporal report is the relations in order, numbered from 1, every one of them
  // current and without an end, whether or not only current ones were asked for.
  lemma EveryRowIsCurrent(lang: Language, memories: seq<Record>, ns: Namespace, view: View, currentOnly: bool)
    ensures var g := Extracted(lang, memories, ns);
            TemporalRows(view, g.relations, currentOnly) == CurrentRows(view, g.relations)
  {
    var relations := Extracted(lang, memories, ns).relations;
    GraphIsDistinct(lang, memories, ns);
    assert Map(Same, Map(TripleOf, relations)) == Map(TripleOf, relations);
    AddDistinct(Same, Map(TripleOf, relations));
    DistinctRowsAreCurrent(view, relations, Map(TripleOf, relations), currentOnly, |relations|);
    FullPrefix(relations, |relations|);
    FullPrefix(Map(TripleOf, relations), |relations|);
  }

  // What such a row says: the relation, valid from the creation of its memory on, with no end.
  lemma CurrentRowReads(view: View, relations: seq<Relation>, i: nat)
    requires i < |relations|
    ensures CurrentRows(view, relations)[i] ==
            TemporalRow(i + 1, relations[i].rel, view.safe(relations[i].subject), view.safe(relations[i].target),
                        view.createdAt(relations[i].sourceId), None, true, relations[i].confidence)
  {
  }

  lemma OneMoreGroup(view: View, relations: seq<Relation>, order: seq<Triple>, currentOnly: bool, i: nat)
    requires i < |order|
    ensures var before := RowsOfGroups(view, relations, order[..i], currentOnly);
            RowsOfGroups(view, relations, order[..i + 1], currentOnly) ==
            before + GroupRows(view, relations, order[i], currentOnly, |before|)
  {
    assert order[..i + 1][..i] == order[..i];
  }

  lemma OneMoreRow(view: View, relations: seq<Relation>, i: nat)
    requires i < |relations|
    ensures CurrentRows(view, relations[..i + 1]) ==
            CurrentRows(view, relations[..i]) + [RowFor(view, relations[i], None, i + 1)]
  {
  }

  lemma SoloGroup(view: View, relations: seq<Relation>, order: seq<Triple>, i: nat, currentOnly: bool)
    requires order == Map(TripleOf, relations) && NoDup(order) && i < |relations|
    ensures GroupRows(view, relations, order[i], currentOnly, i) == [RowFor(view, relations[i], None, i + 1)]
  {
    OneOfTriple(relations, i);
    SingleRow(view, relations, relations[i], currentOnly, i);
  }

  // The groups of the first k triples give the rows of the first k relations.
  ghost predicate CurrentUpTo(view: View, relations: seq<Relation>, order: seq<Triple>, currentOnly: bool, k: nat)
    requires k <= |relations| && k <= |order|
  {
    RowsOfGroups(view, relations, order[..k], currentOnly) == CurrentRows(view, relations[..k])
  }

  lemma NoneCurrent(view: View, relations: seq<Relation>, order: seq<Triple>, currentOnly: bool)
    ensures CurrentUpTo(view, relations, order, currentOnly, 0)
  {
    assert order[..0] == [] && relations[..0] == [];
    assert CurrentRows(view, []) == [];
  }

  lemma OneMoreCurrent(view: View, relations: seq<Relation>, order: seq<Triple>, currentOnly: bool, i: nat, k: nat)
    requires k == i + 1 && k <= |relations| && k <= |order| && CurrentUpTo(view, relations, order, currentOnly, i)
    requires GroupRows(view, relations, order[i], currentOnly, i) == [RowFor(view, relations[i], None, k)]
    ensures CurrentUpTo(view, relations, order, currentOnly, k)
  {
    OneMoreGroup(view, relations, order, currentOnly, i);
    OneMoreRow(view, relations, i);
  }

  lemma {:induction false} DistinctRowsAreCurrent(view: View, relations: seq<Relation>, order: seq<Triple>,
                                                  currentOnly: bool, k: nat)
    requires order == Map(TripleOf, relations) && NoDup(order) && k <= |relations|
    ensures CurrentUpTo(view, relations, order, currentOnly, k)
  {
    if k == 0 {
      NoneCurrent(view, relations, order, currentOnly);
    } else {
      DistinctRowsAreCurrent(view, relations, order, currentOnly, k - 1);
      SoloGroup(view, relations, order, k - 1, currentOnly);
      OneMoreCurrent(view, relations, order, currentOnly, k - 1, k);
    }
  }
}
