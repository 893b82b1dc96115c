/** The memory record, its parts, and the checks their constructors make. */
module Models {
  import opened Seqs
  import opened Text
  import opened ThreadScope

  const MEMORY_KINDS := {"fact", "decision", "convention", "reference"}
  const SOURCE_KINDS := {"doc", "url", "ticket", "commit", "run", "message"}
  const LINK_RELATIONS := {"relates_to", "supersedes", "contradicts", "derived_from"}
  const MEMORY_STATUSES := {"candidate", "active", "archived", "rejected"}

  datatype Namespace = Namespace(tenant: string, project: string) {
    predicate Valid() {
      !Blank(tenant) && !Blank(project)
    }

    function AsKey(): string {
      tenant + "/" + project
    }
  }

  datatype Source = Source(kind: string, ref: string, note: Option<string>) {
    predicate Valid() {
      kind in SOURCE_KINDS && !Blank(ref)
    }
  }

  datatype Link = Link(rel: string, targetId: string) {
    predicate Valid() {
      rel in LINK_RELATIONS && targetId != ""
    }
  }

  // A memory as a value. An id or timestamp that the store has not assigned yet is "".
  datatype Record = Record(
    namespace: Namespace,
    title: string,
    body: string,
    source: Source,
    kind: string,
    tags: seq<string>,
    links: seq<Link>,
    confidence: real,
    status: string,
    id: string,
    createdAt: string,
    updatedAt: string,
    thread: Option<string>,
    expiresAt: Option<string>)

  // Lower-cased, stripped, non-empty tags; of equal ones the first is kept.
  function NormalizeTags(tags: seq<string>): (r: seq<string>)
    ensures NoDup(r)
    ensures forall t :: t in r ==> t != "" && Key(t) == t
  {
    if tags == [] then [] else
    var r := NormalizeTags(tags[..|tags| - 1]);
    var k := Key(tags[|tags| - 1]);
    if k != "" && k !in r then r + [k] else r
  }

  // The loop of Memory.__post_init__, with its set of tags already seen.
  method NormalizeTagLoop(tags: seq<string>) returns (normalized: seq<string>)
    ensures normalized == NormalizeTags(tags)
  {
    var seen: set<string> := {};
    normalized := [];
    for i := 0 to |tags|
      invariant normalized == NormalizeTags(tags[..i])
      invariant forall t :: t in seen <==> t in normalized
    {
      assert tags[..i + 1][..i] == tags[..i];
      var key := Key(tags[i]);
      if key != "" && key !in seen {
        seen := seen + {key};
        normalized := normalized + [key];
      }
    }
    assert tags[..|tags|] == tags;
  }

  lemma OneMoreTag(init: seq<string>, tag: string)
    requires NormalizeTags(init) == init && tag !in init && tag != "" && Key(tag) == tag
    ensures NormalizeTags(init + [tag]) == init + [tag]
  {
    assert (init + [tag])[..|init|] == init;
  }

  lemma {:induction false} NormalizeTagsFixed(tags: seq<string>)
    requires NoDup(tags) && forall t :: t in tags ==> t != "" && Key(t) == t
    ensures NormalizeTags(tags) == tags
  {
    if tags != [] {
      var init, tag := tags[..|tags| - 1], tags[|tags| - 1];
      NoDupPrefix(tags);
      assert forall t :: t in init ==> t in tags;
      assert tags == init + [tag];
      assert tag in tags;
      NormalizeTagsFixed(init);
      OneMoreTag(init, tag);
    }
  }

  lemma NormalizeTagsIdempotent(tags: seq<string>)
    ensures NormalizeTags(NormalizeTags(tags)) == NormalizeTags(tags)
  {
    NormalizeTagsFixed(NormalizeTags(tags));
  }

  // A tag survives exactly when some given tag normalises to it.
  lemma {:induction false} NormalizeTagsMembers(tags: seq<string>, t: string)
    ensures t in NormalizeTags(tags) <==> t != "" && t in Map(Key, tags)
  {
    if tags != [] {
      NormalizeTagsMembers(tags[..|tags| - 1], t);
      MapLast(Key, tags);
    }
  }

  // More tags never change what earlier ones gave: the first of equal tags keeps its place.
  lemma {:induction false} NormalizeTagsGrow(a: seq<string>, b: seq<string>)
    ensures NormalizeTags(a) <= NormalizeTags(a + b)
  {
    if b == [] {
      assert a + b == a;
    } else {
      assert (a + b)[..|a + b| - 1] == a + b[..|b| - 1];
      NormalizeTagsGrow(a, b[..|b| - 1]);
    }
  }

  function NormalizeExpiry(e: Option<string>): Option<string> {
    if e == None || Strip(e.value) == "" then None else Some(Strip(e.value))
  }

  // Building a Memory: None where a constructor raises ValueError, else the normalised record.
  function Construct(raw: Record): Option<Record> {
    if !raw.namespace.Valid() || !raw.source.Valid() then None
    else if exists l :: l in raw.links && !l.Valid() then None
    else if Blank(raw.title) || Blank(raw.body) then None
    else if raw.kind !in MEMORY_KINDS || raw.status !in MEMORY_STATUSES then None
    else if !(0.0 <= raw.confidence <= 1.0) then None
    else
      match NormalizeThread(raw.thread)
      case Refused => None
      case Ok(t) =>
        Some(raw.(thread := t, expiresAt := NormalizeExpiry(raw.expiresAt), tags := NormalizeTags(raw.tags)))
  }

  // A record that construction leaves as it is. Every Memory object holds one.
  predicate WellFormed(r: Record) {
    Construct(r) == Some(r)
  }

  lemma ConstructIdempotent(raw: Record)
    requires Construct(raw).Some?
    ensures WellFormed(Construct(raw).value)
  {
    NormalizeTagsIdempotent(raw.tags);
    NormalizeThreadIdempotent(raw.thread);
  }

  // The fields a store assigns or changes do not affect the constructor's checks.
  lemma WellFormedUpdates(r: Record, id: string, created: string, updated: string, status: string, confidence: real)
    requires WellFormed(r) && status in MEMORY_STATUSES && 0.0 <= confidence <= 1.0
    ensures WellFormed(r.(id := id, createdAt := created, updatedAt := updated,
                          status := status, confidence := confidence))
  {
  }

  // Two different namespaces can have the same key, so a key alone does not decide scope.
  lemma KeysCollide()
    ensures exists a: Namespace, b: Namespace ::
              a.Valid() && b.Valid() && a != b && a.AsKey() == b.AsKey()
  {
    var a, b := Namespace("a/b", "c"), Namespace("a", "b/c");
    assert a.AsKey() == "a/b/c" == b.AsKey();
    assert Trimmed("a/b") && Trimmed("c") && Trimmed("a") && Trimmed("b/c");
    assert a.Valid() && b.Valid() && a.tenant != b.tenant;
  }

  // The '/' at position i of a key could be the one between a tenant and a project.
  predicate Divides(key: string, i: nat) {
    i < |key| && key[i] == '/' && !Blank(key[..i]) && !Blank(key[i + 1..])
  }

  ghost predicate KeyDecides(a: Namespace) {
    forall b: Namespace :: b.Valid() && b.AsKey() == a.AsKey() ==> b == a
  }

  lemma OwnDivision(a: Namespace)
    ensures var key := a.AsKey();
            key[..|a.tenant|] == a.tenant && key[|a.tenant|] == '/' && key[|a.tenant| + 1..] == a.project
  {
  }

  lemma DividedKey(key: string, i: nat)
    requires Divides(key, i)
    ensures var b := Namespace(key[..i], key[i + 1..]);
            b.Valid() && b.AsKey() == key
  {
    assert key == key[..i] + ['/'] + key[i + 1..];
  }

  lemma OnlyDivision(a: Namespace, b: Namespace)
    requires b.Valid() && b.AsKey() == a.AsKey()
    requires forall i: nat :: Divides(a.AsKey(), i) ==> i == |a.tenant|
    ensures b == a
  {
    OwnDivision(a);
    OwnDivision(b);
    assert Divides(a.AsKey(), |b.tenant|);
  }

  lemma DivisionDecides(a: Namespace, i: nat)
    requires KeyDecides(a) && Divides(a.AsKey(), i)
    ensures i == |a.tenant|
  {
    DividedKey(a.AsKey(), i);
    assert |Namespace(a.AsKey()[..i], a.AsKey()[i + 1..]).tenant| == i;
  }

  // A key decides its namespace exactly when no other '/' in it divides it into two parts that are not blank.
  lemma KeyDecidesIff(a: Namespace)
    requires a.Valid()
    ensures KeyDecides(a) <==> forall i: nat :: Divides(a.AsKey(), i) ==> i == |a.tenant|
  {
    if forall i: nat :: Divides(a.AsKey(), i) ==> i == |a.tenant| {
      forall b: Namespace | b.Valid() && b.AsKey() == a.AsKey() ensures b == a {
        OnlyDivision(a, b);
      }
    }
    if KeyDecides(a) {
      forall i: nat | Divides(a.AsKey(), i) ensures i == |a.tenant| {
        DivisionDecides(a, i);
      }
    }
  }

  // In particular a key with a single '/' decides.
  lemma SingleSlashDecides(a: Namespace)
    requires a.Valid() && '/' !in a.tenant && '/' !in a.project
    ensures KeyDecides(a)
  {
    KeyDecidesIff(a);
    OwnDivision(a);
    var key, n := a.AsKey(), |a.tenant|;
    assert forall i :: 0 <= i < n ==> key[i] == a.tenant[i] && a.tenant[i] in a.tenant;
    assert forall i :: n < i < |key| ==> key[i] == a.project[i - n - 1] && a.project[i - n - 1] in a.project;
  }

  // What an audit event records beside its namespace and time.
  datatype Detail =
    | Wrote(id: string, title: string, status: string)
    | Rejected(reason: string)
    | Recalled(query: string, scopeSize: nat, thread: Option<string>)
    | StatusChanged(id: string, from: string, to: string)
    | ConfidenceChanged(id: string, was: real, now: real)
    | Forgot(id: string)

  datatype Event = Event(namespace: Namespace, at: string, detail: Detail)
}
