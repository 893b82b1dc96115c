/** What an extracted graph holds, exactly: which relations, entities and co-occurrences, from which memory, in which order. */
module GraphContents {
  import opened Seqs
  import opened Models
  import opened StoreModel
  import opened Extraction
  import opened Accumulate
  import opened Firsts
  import opened SemanticGraph
  import opened Positions
  import GraphContext
  import opened Budget
  import opened Text

  // ----- Relations -----

  // The relations that the text of a memory states.
  function Stated(lang: Language, m: Record): seq<Edge> {
    Relations(lang, m.title + ". " + m.body)
  }

  // Edge q.1 of memory q.0, which is of the namespace, gives the relation r.
  ghost predicate States(lang: Language, ms: seq<Record>, ns: Namespace, q: (nat, nat), r: Relation) {
    && q.0 < |ms| && ms[q.0].namespace == ns && q.1 < |Stated(lang, ms[q.0])|
    && IsRelation(ms[q.0], Stated(lang, ms[q.0])[q.1], r)
  }

  ghost predicate IsRelation(m: Record, e: Edge, r: Relation) {
    r == Relation(e.rel, e.subject, e.target, e.subjectKind, e.targetKind,
                  m.id, m.title, m.source.ref, m.confidence * 0.85, e.rule)
  }

  // The relations of a graph are those that the memories of its namespace state, memory by memory and edge by
  // edge, except those whose triple was stated before.
  lemma RelationsAreFirsts(lang: Language, ms: seq<Record>, ns: Namespace) returns (at: seq<(nat, nat)>)
    ensures var relations := Extracted(lang, ms, ns).relations;
            && |at| == |relations| && InOrder(at)
            && (forall x :: 0 <= x < |at| ==> States(lang, ms, ns, at[x], relations[x]))
            && forall q, r :: States(lang, ms, ns, q, r) ==>
                 (q in at <==> forall q', r' :: States(lang, ms, ns, q', r') && Earlier(q', q) ==> TripleOf(r') != TripleOf(r))
  {
    var rows := RowsFor(RelationsOf(lang), InNamespace(ns), ms);
    at := FirstsAreKept(TripleOf, rows);
    RowsFlat(RelationsOf(lang), InNamespace(ns), ms);
    forall q, r ensures At(rows, q, r) <==> States(lang, ms, ns, q, r) {
      StatesIs(lang, ms, ns, q, r);
    }
  }

  lemma StatesIs(lang: Language, ms: seq<Record>, ns: Namespace, q: (nat, nat), r: Relation)
    ensures At(RowsFor(RelationsOf(lang), InNamespace(ns), ms), q, r) <==> States(lang, ms, ns, q, r)
  {
    if q.0 < |ms| && ms[q.0].namespace == ns {
      assert RelationsOf(lang)(ms[q.0]) == Map(RelationFor(ms[q.0]), Stated(lang, ms[q.0]));
    }
  }

  // ----- The scan -----

  // What position q of the three scans recognises: a channel, a token with a dot that is a URL, or a word that is
  // a provider under its alias; each only if its name is usable.
  ghost predicate Recognises(lang: Language, text: string, q: (nat, nat), h: Hit) {
    Usable(lang, h.name) &&
    if q.0 == 0 then q.1 < |lang.channels(text)| && h == Hit(lang.canonical(lang.channels(text)[q.1]), "channel")
    else if q.0 == 1 then
      && q.1 < |lang.urlTokens(text)| && '.' in lang.urlTokens(text)[q.1]
      && h == Hit(lang.canonical(lang.urlTokens(text)[q.1]), "url") && lang.url(h.name)
    else
      && q.0 == 2 && q.1 < |lang.words(text)| && lang.alias(lang.words(text)[q.1]) in lang.providers
      && h == Hit(lang.canonical(lang.alias(lang.words(text)[q.1])), "provider")
  }

  function ScanRows(lang: Language, text: string): seq<seq<seq<Hit>>> {
    [Map(ChannelHit(lang), lang.channels(text)), Map(UrlHit(lang), lang.urlTokens(text)), Map(WordHit(lang), lang.words(text))]
  }

  lemma {:induction false} MapFlat<T>(hit: string -> seq<T>, raws: seq<string>)
    ensures RowOf(Map(hit, raws)) == FlatMap(hit, raws)
  {
    if raws != [] {
      var n := |raws| - 1;
      MapLast(hit, raws);
      assert Map(hit, raws)[..n] == Map(hit, raws[..n]);
      MapFlat(hit, raws[..n]);
    }
  }

  lemma ThreeRows<T>(a: seq<seq<T>>, b: seq<seq<T>>, c: seq<seq<T>>)
    ensures Flat([a, b, c]) == RowOf(a) + RowOf(b) + RowOf(c)
  {
    var rows := [a, b, c];
    assert rows[..0] == [] && rows[..3] == rows;
    FlatMapNext(RowOf, rows, 0);
    FlatMapNext(RowOf, rows, 1);
    FlatMapNext(RowOf, rows, 2);
  }

  lemma ScanFlat(lang: Language, text: string)
    ensures Flat(ScanRows(lang, text)) == Hits(lang, text)
  {
    MapFlat(ChannelHit(lang), lang.channels(text));
    MapFlat(UrlHit(lang), lang.urlTokens(text));
    MapFlat(WordHit(lang), lang.words(text));
    ThreeRows(Map(ChannelHit(lang), lang.channels(text)), Map(UrlHit(lang), lang.urlTokens(text)), Map(WordHit(lang), lang.words(text)));
  }

  lemma RecognisesIs(lang: Language, text: string, q: (nat, nat), h: Hit)
    ensures Recognises(lang, text, q, h) <==> At(ScanRows(lang, text), q, h)
  {
    var rows := ScanRows(lang, text);
    assert |rows| == 3;
    if q.0 == 0 && q.1 < |rows[0]| {
      assert rows[0][q.1] == HitFor(lang, lang.channels(text)[q.1], "channel");
    } else if q.0 == 1 && q.1 < |rows[1]| {
      var token := lang.urlTokens(text)[q.1];
      assert HasDot(token) <==> '.' in token;
      assert rows[1][q.1] == UrlHits(lang, token);
    } else if q.0 == 2 && q.1 < |rows[2]| {
      assert rows[2][q.1] == WordHits(lang, lang.words(text)[q.1]);
    }
  }

  // The scan finds what is recognised, channels first, then URLs, then providers, except names found before.
  lemma ScannedExactly(lang: Language, text: string) returns (at: seq<(nat, nat)>)
    ensures var hits := Scanned(lang, text);
            && |at| == |hits| && InOrder(at)
            && (forall x :: 0 <= x < |at| ==> Recognises(lang, text, at[x], hits[x]))
            && forall q, h :: Recognises(lang, text, q, h) ==>
                 (q in at <==> forall r, g :: Recognises(lang, text, r, g) && Earlier(r, q) ==> g.name != h.name)
  {
    var rows := ScanRows(lang, text);
    HitsAreSingle(lang);
    ScanFlat(lang, text);
    at := FirstsAreKept(HitName, rows);
    forall q, h ensures Recognises(lang, text, q, h) <==> At(rows, q, h) {
      RecognisesIs(lang, text, q, h);
    }
  }

  // ----- Entities -----

  // Entity k that these edges name.
  ghost predicate NamedBy(m: Record, edges: seq<Edge>, k: nat, e: Entity) {
    k < 2 * |edges| &&
    if k % 2 == 0 then IsEntity(m, edges[k / 2].subject, edges[k / 2].subjectKind, 0.85, e)
    else IsEntity(m, edges[k / 2].target, edges[k / 2].targetKind, 0.85, e)
  }

  // What memory q.0, which is of the namespace, names at position q.1: the subject and the target of each relation
  // it states in turn, or what is recognised in its text if it states none.
  ghost predicate Names(lang: Language, ms: seq<Record>, ns: Namespace, q: (nat, nat), e: Entity) {
    q.0 < |ms| && ms[q.0].namespace == ns &&
    var m := ms[q.0];
    var edges, hits := Stated(lang, m), Scanned(lang, m.title + ". " + m.body);
    if edges != [] then NamedBy(m, edges, q.1, e)
    else q.1 < |hits| && IsEntity(m, hits[q.1].name, hits[q.1].kind, 0.3, e)
  }

  ghost predicate IsEntity(m: Record, name: string, kind: string, factor: real, e: Entity) {
    e == Entity(kind, name, m.id, m.title, m.source.ref, m.confidence * factor)
  }

  lemma {:induction false} EndpointsAre(m: Record, edges: seq<Edge>)
    ensures |FlatMap(Endpoints(m), edges)| == 2 * |edges|
    ensures forall k :: 0 <= k < |edges| ==>
              && FlatMap(Endpoints(m), edges)[2 * k] == Endpoints(m)(edges[k])[0]
              && FlatMap(Endpoints(m), edges)[2 * k + 1] == Endpoints(m)(edges[k])[1]
  {
    if edges != [] {
      var n := |edges| - 1;
      EndpointsAre(m, edges[..n]);
      assert forall k :: 0 <= k < n ==> edges[..n][k] == edges[k];
    }
  }

  lemma NamesIs(lang: Language, ms: seq<Record>, ns: Namespace, q: (nat, nat), e: Entity)
    ensures At(RowsFor(EntitiesOf(lang), InNamespace(ns), ms), q, e) <==> Names(lang, ms, ns, q, e)
  {
    if q.0 < |ms| && ms[q.0].namespace == ns {
      EntityIs(lang, ms[q.0], q.1, e);
    }
  }

  lemma NamedByIs(m: Record, edges: seq<Edge>, k: nat, e: Entity)
    ensures NamedBy(m, edges, k, e) <==> k < |FlatMap(Endpoints(m), edges)| && FlatMap(Endpoints(m), edges)[k] == e
  {
    EndpointsAre(m, edges);
    var h := k / 2;
    assert k == 2 * h || k == 2 * h + 1;
    if h < |edges| {
      assert Endpoints(m)(edges[h])[k % 2] == FlatMap(Endpoints(m), edges)[k];
    }
  }

  lemma EntityIs(lang: Language, m: Record, k: nat, e: Entity)
    ensures var edges, hits := Stated(lang, m), Scanned(lang, m.title + ". " + m.body);
            k < |EntitiesOf(lang)(m)| && EntitiesOf(lang)(m)[k] == e <==>
            if edges != [] then NamedBy(m, edges, k, e)
            else k < |hits| && IsEntity(m, hits[k].name, hits[k].kind, 0.3, e)
  {
    NamedByIs(m, Stated(lang, m), k, e);
    assert MemoryText(m) == m.title + ". " + m.body && EdgesOf(lang, m) == Stated(lang, m);
  }

  // The entities of a graph are what the memories of its namespace name, except keys named before.
  lemma EntitiesAreFirsts(lang: Language, ms: seq<Record>, ns: Namespace) returns (at: seq<(nat, nat)>)
    ensures var entities := Extracted(lang, ms, ns).entities;
            && |at| == |entities| && InOrder(at)
            && (forall x :: 0 <= x < |at| ==> Names(lang, ms, ns, at[x], entities[x]))
            && forall q, e :: Names(lang, ms, ns, q, e) ==>
                 (q in at <==> forall q', e' :: Names(lang, ms, ns, q', e') && Earlier(q', q) ==> KeyOf(e') != KeyOf(e))
  {
    var rows := RowsFor(EntitiesOf(lang), InNamespace(ns), ms);
    at := FirstsAreKept(KeyOf, rows);
    RowsFlat(EntitiesOf(lang), InNamespace(ns), ms);
    forall q, e ensures At(rows, q, e) <==> Names(lang, ms, ns, q, e) {
      NamesIs(lang, ms, ns, q, e);
    }
  }

  // ----- Co-occurrences -----

  // The pairs that a memory gives: none if it states a relation, and else each two of what is recognised in its text.
  function Companions(lang: Language, m: Record): seq<Relation> {
    CoOccursOf(lang)(m)
  }

  ghost predicate IsPair(m: Record, a: Hit, b: Hit, r: Relation) {
    r == Relation("co_occurs", a.name, b.name, a.kind, b.kind, m.id, m.title, m.source.ref, m.confidence * 0.3, "co_occurs:scan")
  }

  lemma CompanionsAre(lang: Language, m: Record) returns (at: seq<(nat, nat)>)
    ensures Stated(lang, m) != [] ==> Companions(lang, m) == []
    ensures var hits := Scanned(lang, m.title + ". " + m.body);
            Stated(lang, m) == [] ==>
              && |at| == |Companions(lang, m)| && InOrder(at)
              && (forall x :: 0 <= x < |at| ==>
                    at[x].0 < at[x].1 < |hits| && IsPair(m, hits[at[x].0], hits[at[x].1], Companions(lang, m)[x]))
              && forall i: nat, k: nat :: i < k < |hits| ==> (i, k) in at
  {
    at := PairsInOrder(Paired(m), Scanned(lang, m.title + ". " + m.body));
    assert MemoryText(m) == m.title + ". " + m.body && EdgesOf(lang, m) == Stated(lang, m);
  }

  // Pair q.1 of memory q.0, which is of the namespace.
  ghost predicate Joins(lang: Language, ms: seq<Record>, ns: Namespace, q: (nat, nat), r: Relation) {
    q.0 < |ms| && ms[q.0].namespace == ns && q.1 < |Companions(lang, ms[q.0])| && r == Companions(lang, ms[q.0])[q.1]
  }

  // The co-occurrences of a graph are the pairs of its memories, except pairs of names that were joined before.
  lemma CoOccurrencesAreFirsts(lang: Language, ms: seq<Record>, ns: Namespace) returns (at: seq<(nat, nat)>)
    ensures var coOccurs := Extracted(lang, ms, ns).coOccurs;
            && |at| == |coOccurs| && InOrder(at)
            && (forall x :: 0 <= x < |at| ==> Joins(lang, ms, ns, at[x], coOccurs[x]))
            && forall q, r :: Joins(lang, ms, ns, q, r) ==>
                 (q in at <==> forall q', r' :: Joins(lang, ms, ns, q', r') && Earlier(q', q) ==> TripleOf(r') != TripleOf(r))
  {
    var rows := RowsFor(CoOccursOf(lang), InNamespace(ns), ms);
    at := FirstsAreKept(TripleOf, rows);
    RowsFlat(CoOccursOf(lang), InNamespace(ns), ms);
    forall q, r ensures At(rows, q, r) <==> Joins(lang, ms, ns, q, r) {
      JoinsIs(lang, ms, ns, q, r);
    }
  }

  lemma JoinsIs(lang: Language, ms: seq<Record>, ns: Namespace, q: (nat, nat), r: Relation)
    ensures At(RowsFor(CoOccursOf(lang), InNamespace(ns), ms), q, r) <==> Joins(lang, ms, ns, q, r)
  {
  }

  // ----- The order of a graph context -----

  // The relation at position q.1 belongs to the group of word q.0 of the vocabulary.
  ghost predicate Groups(vocabulary: seq<string>, relations: seq<Relation>, q: (nat, nat)) {
    q.0 < |vocabulary| && q.1 < |relations| && relations[q.1].rel == vocabulary[q.0]
  }

  // The positions of the first n groups.
  ghost predicate GroupedAt(vocabulary: seq<string>, relations: seq<Relation>, n: nat, at: seq<(nat, nat)>, grouped: seq<Relation>) {
    && |at| == |grouped| && InOrder(at)
    && (forall x :: 0 <= x < |at| ==> at[x].0 < n && Groups(vocabulary, relations, at[x]) && grouped[x] == relations[at[x].1])
    && forall q: (nat, nat) :: q.0 < n && Groups(vocabulary, relations, q) ==> q in at
  }

  // The positions of group n alone.
  ghost predicate GroupAt(vocabulary: seq<string>, relations: seq<Relation>, n: nat, at: seq<(nat, nat)>, group: seq<Relation>) {
    && |at| == |group| && InOrder(at)
    && (forall x :: 0 <= x < |at| ==> at[x].0 == n && Groups(vocabulary, relations, at[x]) && group[x] == relations[at[x].1])
    && forall q: (nat, nat) :: q.0 == n && Groups(vocabulary, relations, q) ==> q in at
  }

  lemma OneGroup(vocabulary: seq<string>, relations: seq<Relation>, n: nat) returns (at: seq<(nat, nat)>)
    requires n < |vocabulary|
    ensures GroupAt(vocabulary, relations, n, at, Filter(GraphContext.Named(vocabulary[n]), relations))
  {
    var named := GraphContext.Named(vocabulary[n]);
    var picked := FilterPicks(named, relations);
    at := seq(|picked|, x requires 0 <= x < |picked| => (n, picked[x]));
    forall x | 0 <= x < |at| ensures Groups(vocabulary, relations, at[x]) {
      assert Picked(picked, picked[x]);
    }
    forall q: (nat, nat) | q.0 == n && Groups(vocabulary, relations, q) ensures q in at {
      assert named(relations[q.1]) && Picked(picked, q.1);
      var x :| 0 <= x < |picked| && picked[x] == q.1;
      assert at[x] == q;
    }
  }

  lemma NoneIsLost(n: nat, at: seq<(nat, nat)>, more: seq<(nat, nat)>, q: (nat, nat))
    requires q.0 < n ==> q in at
    requires q.0 == n ==> q in more
    ensures q.0 < n + 1 ==> q in at + more
  {
  }

  lemma OneMoreGroup(vocabulary: seq<string>, relations: seq<Relation>, n: nat, at: seq<(nat, nat)>, grouped: seq<Relation>,
                     more: seq<(nat, nat)>, group: seq<Relation>)
    requires GroupedAt(vocabulary, relations, n, at, grouped) && GroupAt(vocabulary, relations, n, more, group)
    ensures GroupedAt(vocabulary, relations, n + 1, at + more, grouped + group)
  {
    OneAfterTheOther(at, more, n);
    forall q: (nat, nat) | q.0 < n + 1 && Groups(vocabulary, relations, q) ensures q in at + more {
      NoneIsLost(n, at, more, q);
    }
    forall x | 0 <= x < |at + more|
      ensures (at + more)[x].0 < n + 1 && Groups(vocabulary, relations, (at + more)[x])
      ensures (grouped + group)[x] == relations[(at + more)[x].1]
    {
      if x < |at| {
        assert (at + more)[x] == at[x];
      } else {
        assert (at + more)[x] == more[x - |at|];
      }
    }
  }

  lemma OneAfterTheOther(at: seq<(nat, nat)>, more: seq<(nat, nat)>, n: nat)
    requires InOrder(at) && InOrder(more)
    requires (forall x :: 0 <= x < |at| ==> at[x].0 < n) && forall x :: 0 <= x < |more| ==> more[x].0 == n
    ensures InOrder(at + more)
  {
  }

  // The relations of a context stand group by group in the order of the vocabulary, and within a group as in the graph.
  lemma ContextOrder(vocabulary: seq<string>, relations: seq<Relation>) returns (at: seq<(nat, nat)>)
    ensures GroupedAt(vocabulary, relations, |vocabulary|, at, GraphContext.Grouped(vocabulary, relations))
  {
    at := FirstGroups(vocabulary, relations, |vocabulary|);
    FullPrefix(vocabulary, |vocabulary|);
  }

  lemma {:induction false} FirstGroups(vocabulary: seq<string>, relations: seq<Relation>, n: nat) returns (at: seq<(nat, nat)>)
    requires n <= |vocabulary|
    ensures GroupedAt(vocabulary, relations, n, at, GraphContext.Grouped(vocabulary[..n], relations))
  {
    at := [];
    if n > 0 {
      var before := FirstGroups(vocabulary, relations, n - 1);
      var more := OneGroup(vocabulary, relations, n - 1);
      FlatMapNext(GraphContext.OfRelation(relations), vocabulary, n - 1);
      OneMoreGroup(vocabulary, relations, n - 1, before, GraphContext.Grouped(vocabulary[..n - 1], relations),
                   more, Filter(GraphContext.Named(vocabulary[n - 1]), relations));
      at := before + more;
    }
  }

  // The lines of a context are those of its grouped relations and then those of the co-occurrences, and read so.
  lemma ContextLines(vocabulary: seq<string>, g: Graph)
    ensures GraphContext.Lines(vocabulary, g) ==
            Map(GraphContext.RelationLine, GraphContext.Grouped(vocabulary, g.relations)) + Map(GraphContext.PairLine, g.coOccurs)
  {
    var lines := Map(GraphContext.RelationLines(g.relations), vocabulary);
    GraphContext.LinesFollowGroups(vocabulary, g.relations);
    LastOfFlat(Same, lines, Map(GraphContext.PairLine, g.coOccurs));
  }

  lemma LinesRead(r: Relation)
    requires r.subject == "a" && r.target == "b"
    ensures r.rel == "owns" ==> GraphContext.RelationLine(r) == "- a --owns--> b"
    ensures GraphContext.PairLine(r) == "- a ~ b (co_occurs)"
  {
  }

  // A context is its header and its lines up to the first that does not fit what is left of the budget; nothing
  // if not even the first line does.
  lemma ContextIsGreedy(budget: Option<int>, header: string, lines: seq<string>) returns (k: nat)
    ensures var limits := Limits(None, budget);
            && k <= |lines|
            && GraphContext.Context(budget, header, lines) == (if k == 0 then "" else Strip(Join("\n", [header] + lines[..k])))
            && (forall i :: 0 <= i < k ==> FitsNext(limits, header, lines, i))
            && (k < |lines| ==> !FitsNext(limits, header, lines, k))
  {
    k := RenderedCount(Limits(None, budget), header, lines);
    RenderedUpTo(Limits(None, budget), header, lines);
  }
}
