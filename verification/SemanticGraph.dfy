/** The semantic graph of a namespace: entities, relations and co-occurrences accumulated over its memories. */
module SemanticGraph {
  import opened Seqs
  import opened Models
  import opened StoreModel
  import opened Extraction
  import opened Accumulate

  const SEMANTIC_CONFIDENCE := 0.85
  const CO_OCCURS_CONFIDENCE := 0.3
  const CO_OCCURS := "co_occurs"

  datatype Entity = Entity(
    kind: string, name: string, sourceId: string, sourceTitle: string, sourceRef: string, confidence: real)

  datatype Relation = Relation(
    rel: string, subject: string, target: string, subjectKind: string, targetKind: string,
    sourceId: string, sourceTitle: string, sourceRef: string, confidence: real, rule: string)

  datatype Graph = Graph(entities: seq<Entity>, relations: seq<Relation>, coOccurs: seq<Relation>)

  datatype EntityId = EntityId(kind: string, name: string)
  datatype Triple = Triple(rel: string, subject: string, target: string)

  // Within one namespace, the parts of GraphEntity.key and GraphRelation.triple that vary.
  function KeyOf(e: Entity): EntityId {
    EntityId(e.kind, e.name)
  }

  function TripleOf(r: Relation): Triple {
    Triple(r.rel, r.subject, r.target)
  }

  // ----- The scan of the fallback -----

  datatype Hit = Hit(name: string, kind: string)

  function HitName(h: Hit): string {
    h.name
  }

  function HitFor(lang: Language, raw: string, kind: string): (h: seq<Hit>)
    ensures |h| <= 1
  {
    if Usable(lang, lang.canonical(raw)) then [Hit(lang.canonical(raw), kind)] else []
  }

  predicate HasDot(s: string) {
    exists i :: 0 <= i < |s| && s[i] == '.'
  }

  function ChannelHit(lang: Language): string -> seq<Hit> {
    (raw: string) => HitFor(lang, raw, "channel")
  }

  function UrlHits(lang: Language, raw: string): (h: seq<Hit>)
    ensures |h| <= 1
  {
    if HasDot(raw) && lang.url(lang.canonical(raw)) then HitFor(lang, raw, "url") else []
  }

  function UrlHit(lang: Language): string -> seq<Hit> {
    (raw: string) => UrlHits(lang, raw)
  }

  function WordHits(lang: Language, raw: string): (h: seq<Hit>)
    ensures |h| <= 1
  {
    if lang.alias(raw) in lang.providers then HitFor(lang, lang.alias(raw), "provider") else []
  }

  function WordHit(lang: Language): string -> seq<Hit> {
    (raw: string) => WordHits(lang, raw)
  }

  // Everything the three scans recognise, in order.
  function Hits(lang: Language, text: string): seq<Hit> {
    FlatMap(ChannelHit(lang), lang.channels(text)) + FlatMap(UrlHit(lang), lang.urlTokens(text))
    + FlatMap(WordHit(lang), lang.words(text))
  }

  // The first hit of each name.
  function Scanned(lang: Language, text: string): seq<Hit> {
    AddAll(HitName, [], Hits(lang, text))
  }

  ghost predicate AtMostOne(hit: string -> seq<Hit>) {
    forall raw :: |hit(raw)| <= 1
  }

  lemma OneMoreHit(hit: string -> seq<Hit>, raws: seq<string>, i: nat, found: seq<Hit>, before: seq<Hit>)
    requires i < |raws| && AtMostOne(hit) && before == AddAll(HitName, found, FlatMap(hit, raws[..i]))
    ensures var h := hit(raws[i]);
            AddAll(HitName, found, FlatMap(hit, raws[..i + 1])) ==
            if h == [] then before else AddNew(HitName, before, h[0])
    ensures var h := hit(raws[i]);
            h != [] ==> KeysOf(HitName, before + [h[0]]) == KeysOf(HitName, before) + {h[0].name}
  {
    var h := hit(raws[i]);
    assert raws[..i + 1][..i] == raws[..i];
    AddAllAppend(HitName, found, FlatMap(hit, raws[..i]), h);
    if h != [] {
      assert h == [h[0]];
      AddOne(HitName, before, h[0]);
      assert Map(HitName, before + [h[0]]) == Map(HitName, before) + [h[0].name];
    }
  }

  // One pass over raw matches; a name seen before, in this pass or an earlier one, is skipped.
  method ScanPass(hit: string -> seq<Hit>, raws: seq<string>, already: seq<Hit>, seenAlready: set<string>)
    returns (found: seq<Hit>, seen: set<string>)
    requires AtMostOne(hit) && seenAlready == KeysOf(HitName, already)
    ensures found == AddAll(HitName, already, FlatMap(hit, raws)) && seen == KeysOf(HitName, found)
  {
    found, seen := already, seenAlready;
    for i := 0 to |raws|
      invariant found == AddAll(HitName, already, FlatMap(hit, raws[..i])) && seen == KeysOf(HitName, found)
    {
      OneMoreHit(hit, raws, i, already, found);
      var h := hit(raws[i]);
      if h != [] && h[0].name !in seen {
        seen, found := seen + {h[0].name}, found + [h[0]];
      }
    }
    assert raws[..|raws|] == raws;
  }

  lemma HitsAreSingle(lang: Language)
    ensures AtMostOne(ChannelHit(lang)) && AtMostOne(UrlHit(lang)) && AtMostOne(WordHit(lang))
  {
  }

  lemma ThreePasses(a: seq<Hit>, b: seq<Hit>, c: seq<Hit>)
    ensures AddAll(HitName, [], a + b + c) == AddAll(HitName, AddAll(HitName, AddAll(HitName, [], a), b), c)
  {
    AddAllAppend(HitName, [], a, b);
    AddAllAppend(HitName, [], a + b, c);
  }

  method ScanEntities(lang: Language, text: string) returns (found: seq<Hit>)
    ensures found == Scanned(lang, text)
  {
    HitsAreSingle(lang);
    var seen;
    found, seen := ScanPass(ChannelHit(lang), lang.channels(text), [], {});
    found, seen := ScanPass(UrlHit(lang), lang.urlTokens(text), found, seen);
    found, seen := ScanPass(WordHit(lang), lang.words(text), found, seen);
    ThreePasses(FlatMap(ChannelHit(lang), lang.channels(text)), FlatMap(UrlHit(lang), lang.urlTokens(text)),
                FlatMap(WordHit(lang), lang.words(text)));
  }

  // ----- What one memory contributes -----

  function MemoryText(m: Record): string {
    m.title + ". " + m.body
  }

  function EdgesOf(lang: Language, m: Record): seq<Edge> {
    Relations(lang, MemoryText(m))
  }

  function EntityFor(m: Record, name: string, kind: string, factor: real): Entity {
    Entity(kind, name, m.id, m.title, m.source.ref, m.confidence * factor)
  }

  function Endpoints(m: Record): Edge -> seq<Entity> {
    (e: Edge) => [EntityFor(m, e.subject, e.subjectKind, SEMANTIC_CONFIDENCE),
                  EntityFor(m, e.target, e.targetKind, SEMANTIC_CONFIDENCE)]
  }

  function HitEntity(m: Record): Hit -> Entity {
    (h: Hit) => EntityFor(m, h.name, h.kind, CO_OCCURS_CONFIDENCE)
  }

  function RelationFor(m: Record): Edge -> Relation {
    (e: Edge) => Relation(e.rel, e.subject, e.target, e.subjectKind, e.targetKind,
                          m.id, m.title, m.source.ref, m.confidence * SEMANTIC_CONFIDENCE, e.rule)
  }

  function PairFor(m: Record, a: Hit, b: Hit): Relation {
    Relation(CO_OCCURS, a.name, b.name, a.kind, b.kind,
             m.id, m.title, m.source.ref, m.confidence * CO_OCCURS_CONFIDENCE, "co_occurs:scan")
  }

  function Paired(m: Record): (Hit, Hit) -> seq<Relation> {
    (a: Hit, b: Hit) => [PairFor(m, a, b)]
  }

  function EntitiesOf(lang: Language): Record -> seq<Entity> {
    (m: Record) =>
      if EdgesOf(lang, m) != [] then FlatMap(Endpoints(m), EdgesOf(lang, m))
      else Map(HitEntity(m), Scanned(lang, MemoryText(m)))
  }

  function RelationsOf(lang: Language): Record -> seq<Relation> {
    (m: Record) => Map(RelationFor(m), EdgesOf(lang, m))
  }

  function CoOccursOf(lang: Language): Record -> seq<Relation> {
    (m: Record) =>
      if EdgesOf(lang, m) != [] then []
      else Pairs(Paired(m), Scanned(lang, MemoryText(m)))
  }

  // The graph of a namespace: of everything its memories contribute, the first of each key.
  function Extracted(lang: Language, memories: seq<Record>, ns: Namespace): Graph {
    var own := Filter(InNamespace(ns), memories);
    Graph(AddAll(KeyOf, [], FlatMap(EntitiesOf(lang), own)),
          AddAll(TripleOf, [], FlatMap(RelationsOf(lang), own)),
          AddAll(TripleOf, [], FlatMap(CoOccursOf(lang), own)))
  }

  // ----- The loops -----

  // The lists of the graph under construction, with the sets of keys already seen.
  class Builder {
    var entities: seq<Entity>
    var relations: seq<Relation>
    var coOccurs: seq<Relation>
    var seenEntities: set<EntityId>
    var seenTriples: set<Triple>
    var seenCoOccurs: set<Triple>

    ghost predicate Valid()
      reads this
    {
      && seenEntities == KeysOf(KeyOf, entities)
      && seenTriples == KeysOf(TripleOf, relations)
      && seenCoOccurs == KeysOf(TripleOf, coOccurs)
    }

    constructor ()
      ensures Valid() && entities == [] && relations == [] && coOccurs == []
    {
      entities, relations, coOccurs := [], [], [];
      seenEntities, seenTriples, seenCoOccurs := {}, {}, {};
    }

    method RegisterEntity(e: Entity)
      requires Valid()
      modifies this`entities, this`seenEntities
      ensures Valid() && entities == AddNew(KeyOf, old(entities), e)
    {
      AddNewKeys(KeyOf, entities, e);
      if KeyOf(e) !in seenEntities {
        seenEntities, entities := seenEntities + {KeyOf(e)}, entities + [e];
      }
    }

    method RegisterRelation(r: Relation)
      requires Valid()
      modifies this`relations, this`seenTriples
      ensures Valid() && relations == AddNew(TripleOf, old(relations), r)
    {
      AddNewKeys(TripleOf, relations, r);
      if TripleOf(r) !in seenTriples {
        seenTriples, relations := seenTriples + {TripleOf(r)}, relations + [r];
      }
    }

    method RegisterPair(r: Relation)
      requires Valid()
      modifies this`coOccurs, this`seenCoOccurs
      ensures Valid() && coOccurs == AddNew(TripleOf, old(coOccurs), r)
    {
      AddNewKeys(TripleOf, coOccurs, r);
      if TripleOf(r) !in seenCoOccurs {
        seenCoOccurs, coOccurs := seenCoOccurs + {TripleOf(r)}, coOccurs + [r];
      }
    }

    method AddEdges(m: Record, edges: seq<Edge>)
      requires Valid()
      modifies this`entities, this`seenEntities, this`relations, this`seenTriples
      ensures Valid()
      ensures entities == AddAll(KeyOf, old(entities), FlatMap(Endpoints(m), edges))
      ensures relations == AddAll(TripleOf, old(relations), Map(RelationFor(m), edges))
    {
      for i := 0 to |edges|
        invariant Valid()
        invariant entities == AddAll(KeyOf, old(entities), FlatMap(Endpoints(m), edges[..i]))
        invariant relations == AddAll(TripleOf, old(relations), Map(RelationFor(m), edges[..i]))
      {
        OneMoreEdge(m, edges, i, old(entities), old(relations));
        RegisterEntity(EntityFor(m, edges[i].subject, edges[i].subjectKind, SEMANTIC_CONFIDENCE));
        RegisterEntity(EntityFor(m, edges[i].target, edges[i].targetKind, SEMANTIC_CONFIDENCE));
        RegisterRelation(RelationFor(m)(edges[i]));
      }
      assert edges[..|edges|] == edges;
    }

    method AddHits(m: Record, hits: seq<Hit>)
      requires Valid()
      modifies this`entities, this`seenEntities
      ensures Valid() && entities == AddAll(KeyOf, old(entities), Map(HitEntity(m), hits))
    {
      for i := 0 to |hits|
        invariant Valid() && entities == AddAll(KeyOf, old(entities), Map(HitEntity(m), hits[..i]))
      {
        assert Map(HitEntity(m), hits[..i + 1])[..i] == Map(HitEntity(m), hits[..i]);
        RegisterEntity(HitEntity(m)(hits[i]));
      }
      assert hits[..|hits|] == hits;
    }

    // The pairs of one hit with each later one.
    method AddPairsOf(m: Record, hit: Hit, later: seq<Hit>)
      requires Valid()
      modifies this`coOccurs, this`seenCoOccurs
      ensures Valid() && coOccurs == AddAll(TripleOf, old(coOccurs), FlatMap(With(Paired(m), hit), later))
    {
      for j := 0 to |later|
        invariant Valid() && coOccurs == AddAll(TripleOf, old(coOccurs), FlatMap(With(Paired(m), hit), later[..j]))
      {
        OneMorePair(m, hit, later, j, old(coOccurs));
        RegisterPair(PairFor(m, hit, later[j]));
      }
      FullPrefix(later, |later|);
    }

    method AddPairs(m: Record, hits: seq<Hit>)
      requires Valid()
      modifies this`coOccurs, this`seenCoOccurs
      ensures Valid() && coOccurs == AddAll(TripleOf, old(coOccurs), Pairs(Paired(m), hits))
    {
      ghost var found: seq<Relation> := [];
      NoPairsYet(Paired(m), hits);
      for i := 0 to |hits|
        invariant Valid() && coOccurs == AddAll(TripleOf, old(coOccurs), found)
        invariant PairsLeft(Paired(m), hits, i, found)
      {
        ghost var more := FlatMap(With(Paired(m), hits[i]), hits[i + 1..]);
        MorePairs(Paired(m), hits, i, found);
        AddAllAppend(TripleOf, old(coOccurs), found, more);
        AddPairsOf(m, hits[i], hits[i + 1..]);
        found := found + more;
      }
      AllPairs(Paired(m), hits, found);
    }

    method AddMemory(lang: Language, m: Record)
      requires Valid()
      modifies this
      ensures Valid()
      ensures entities == AddAll(KeyOf, old(entities), EntitiesOf(lang)(m))
      ensures relations == AddAll(TripleOf, old(relations), RelationsOf(lang)(m))
      ensures coOccurs == AddAll(TripleOf, old(coOccurs), CoOccursOf(lang)(m))
    {
      var edges := ExtractRelations(lang, MemoryText(m));
      Contribution(lang, m, edges, old(entities), old(relations), old(coOccurs));
      AddEdges(m, edges);
      if edges != [] {
        return;
      }
      var scanned := ScanEntities(lang, MemoryText(m));
      AddHits(m, scanned);
      AddPairs(m, scanned);
    }
  }

  lemma Contribution(lang: Language, m: Record, edges: seq<Edge>,
                     es: seq<Entity>, rs: seq<Relation>, cs: seq<Relation>)
    requires edges == EdgesOf(lang, m)
    ensures RelationsOf(lang)(m) == Map(RelationFor(m), edges)
    ensures edges != [] ==> EntitiesOf(lang)(m) == FlatMap(Endpoints(m), edges)
                            && AddAll(TripleOf, cs, CoOccursOf(lang)(m)) == cs
    ensures edges == [] ==>
              var hits := Scanned(lang, MemoryText(m));
              && EntitiesOf(lang)(m) == Map(HitEntity(m), hits)
              && CoOccursOf(lang)(m) == Pairs(Paired(m), hits)
              && AddAll(KeyOf, es, FlatMap(Endpoints(m), edges)) == es
              && AddAll(TripleOf, rs, Map(RelationFor(m), edges)) == rs
  {
  }

  lemma OneMorePair(m: Record, hit: Hit, later: seq<Hit>, j: nat, cs: seq<Relation>)
    requires j < |later|
    ensures var f := With(Paired(m), hit);
            AddAll(TripleOf, cs, FlatMap(f, later[..j + 1])) ==
            AddNew(TripleOf, AddAll(TripleOf, cs, FlatMap(f, later[..j])), PairFor(m, hit, later[j]))
  {
    var f := With(Paired(m), hit);
    FlatMapNext(f, later, j);
    AddAllAppend(TripleOf, cs, FlatMap(f, later[..j]), f(later[j]));
    AddOne(TripleOf, AddAll(TripleOf, cs, FlatMap(f, later[..j])), PairFor(m, hit, later[j]));
  }

  lemma OneMoreEdge(m: Record, edges: seq<Edge>, i: nat, es: seq<Entity>, rs: seq<Relation>)
    requires i < |edges|
    ensures var subject := EntityFor(m, edges[i].subject, edges[i].subjectKind, SEMANTIC_CONFIDENCE);
            var target := EntityFor(m, edges[i].target, edges[i].targetKind, SEMANTIC_CONFIDENCE);
            AddAll(KeyOf, es, FlatMap(Endpoints(m), edges[..i + 1])) ==
            AddNew(KeyOf, AddNew(KeyOf, AddAll(KeyOf, es, FlatMap(Endpoints(m), edges[..i])), subject), target)
    ensures AddAll(TripleOf, rs, Map(RelationFor(m), edges[..i + 1])) ==
            AddNew(TripleOf, AddAll(TripleOf, rs, Map(RelationFor(m), edges[..i])), RelationFor(m)(edges[i]))
  {
    var ends, before := Endpoints(m)(edges[i]), FlatMap(Endpoints(m), edges[..i]);
    assert edges[..i + 1][..i] == edges[..i];
    AddAllAppend(KeyOf, es, before, ends);
    assert ends[..1] == [ends[0]];
    AddOne(KeyOf, AddAll(KeyOf, es, before), ends[0]);
    assert Map(RelationFor(m), edges[..i + 1])[..i] == Map(RelationFor(m), edges[..i]);
  }

  method ExtractGraph(lang: Language, memories: seq<Record>, ns: Namespace) returns (g: Graph)
    ensures g == Extracted(lang, memories, ns)
  {
    var b := new Builder();
    for i := 0 to |memories|
      invariant b.Valid() && fresh(b)
      invariant Graph(b.entities, b.relations, b.coOccurs) == Extracted(lang, memories[..i], ns)
    {
      OneMoreMemory(lang, memories, i, ns);
      if memories[i].namespace != ns {
        continue;
      }
      b.AddMemory(lang, memories[i]);
    }
    assert memories[..|memories|] == memories;
    g := Graph(b.entities, b.relations, b.coOccurs);
  }

  lemma OneMoreMemory(lang: Language, memories: seq<Record>, i: nat, ns: Namespace)
    requires i < |memories|
    ensures var g, m := Extracted(lang, memories[..i], ns), memories[i];
            Extracted(lang, memories[..i + 1], ns) ==
            if m.namespace != ns then g
            else Graph(AddAll(KeyOf, g.entities, EntitiesOf(lang)(m)),
                       AddAll(TripleOf, g.relations, RelationsOf(lang)(m)),
                       AddAll(TripleOf, g.coOccurs, CoOccursOf(lang)(m)))
  {
    var own, m := Filter(InNamespace(ns), memories[..i]), memories[i];
    assert memories[..i + 1][..i] == memories[..i];
    if m.namespace == ns {
      assert (own + [m])[..|own|] == own;
      AddAllAppend(KeyOf, [], FlatMap(EntitiesOf(lang), own), EntitiesOf(lang)(m));
      AddAllAppend(TripleOf, [], FlatMap(RelationsOf(lang), own), RelationsOf(lang)(m));
      AddAllAppend(TripleOf, [], FlatMap(CoOccursOf(lang), own), CoOccursOf(lang)(m));
    }
  }
}
