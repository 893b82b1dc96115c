/** Memories as JSON objects: writing one, and reading one back with defaults and errors. */
module Serialize {
  import opened Seqs
  import opened Models

  // A key of a JSON object: missing, null, or present with a value of its type.
  datatype Field<+T> = Absent | Null | Val(value: T) {
    function GetOr(default: T): T {
      if Val? then value else default
    }

    function ToOption(): Option<T> {
      if Val? then Some(value) else None
    }
  }

  datatype WireNamespace = WireNamespace(tenant: Field<string>, project: Field<string>)
  datatype WireSource = WireSource(kind: Field<string>, ref: Field<string>, note: Field<string>)
  datatype WireLink = WireLink(rel: Field<string>, targetId: Field<string>)
  datatype Wire = Wire(
    id: Field<string>,
    namespace: Field<WireNamespace>,
    title: Field<string>,
    body: Field<string>,
    kind: Field<string>,
    tags: Field<seq<string>>,
    source: Field<WireSource>,
    links: Field<seq<WireLink>>,
    confidence: Field<real>,
    status: Field<string>,
    createdAt: Field<string>,
    updatedAt: Field<string>,
    thread: Field<string>,
    expiresAt: Field<string>)

  function Assigned(s: string): Field<string> {
    if s == "" then Null else Val(s)
  }

  function Nullable(o: Option<string>): Field<string> {
    if o.Some? then Val(o.value) else Null
  }

  function LinkToDict(l: Link): WireLink {
    WireLink(Val(l.rel), Val(l.targetId))
  }

  function MemoryToDict(m: Record): Wire {
    Wire(Assigned(m.id),
         Val(WireNamespace(Val(m.namespace.tenant), Val(m.namespace.project))),
         Val(m.title), Val(m.body), Val(m.kind), Val(m.tags),
         Val(WireSource(Val(m.source.kind), Val(m.source.ref), Nullable(m.source.note))),
         Val(Map(LinkToDict, m.links)),
         Val(m.confidence), Val(m.status), Assigned(m.createdAt), Assigned(m.updatedAt),
         Nullable(m.thread), Nullable(m.expiresAt))
  }

  predicate LinkReadable(l: WireLink) {
    l.rel.Val? && l.targetId.Val?
  }

  function LinkFromDict(l: WireLink): Link {
    Link(l.rel.GetOr(""), l.targetId.GetOr(""))
  }

  // None stands for the KeyError, TypeError or ValueError that reading raises.
  function MemoryFromDict(d: Wire): Option<Record> {
    if !d.namespace.Val? || !d.namespace.value.tenant.Val? || !d.namespace.value.project.Val? then None
    else if !d.title.Val? || !d.body.Val? then None
    else if !d.source.Val? || !d.source.value.kind.Val? || !d.source.value.ref.Val? then None
    else if d.kind.Null? || d.tags.Null? || d.links.Null? || d.confidence.Null? || d.status.Null? then None
    else if exists l :: l in d.links.GetOr([]) && !LinkReadable(l) then None
    else
      Construct(Record(
        Namespace(d.namespace.value.tenant.value, d.namespace.value.project.value),
        d.title.value,
        d.body.value,
        Source(d.source.value.kind.value, d.source.value.ref.value, d.source.value.note.ToOption()),
        d.kind.GetOr("fact"),
        d.tags.GetOr([]),
        Map(LinkFromDict, d.links.GetOr([])),
        d.confidence.GetOr(1.0),
        d.status.GetOr("active"),
        d.id.GetOr(""),
        d.createdAt.GetOr(""),
        if d.updatedAt.Absent? then d.createdAt.GetOr("") else d.updatedAt.GetOr(""),
        d.thread.ToOption(),
        d.expiresAt.ToOption()))
  }

  // Every record a Memory object can hold survives writing and reading.
  lemma RoundTrip(m: Record)
    requires WellFormed(m)
    ensures MemoryFromDict(MemoryToDict(m)) == Some(m)
  {
    LinksRoundTrip(m.links);
  }

  lemma LinksRoundTrip(links: seq<Link>)
    ensures var written := Map(LinkToDict, links);
            (forall l :: l in written ==> LinkReadable(l)) && Map(LinkFromDict, written) == links
  {
    var written := Map(LinkToDict, links);
    forall l | l in written ensures LinkReadable(l) {
      var i :| 0 <= i < |links| && written[i] == l;
    }
  }

  // Whatever is read is a record that construction accepts unchanged.
  lemma ReadIsWellFormed(d: Wire)
    requires MemoryFromDict(d).Some?
    ensures WellFormed(MemoryFromDict(d).value)
  {
    var raw :| Construct(raw) == MemoryFromDict(d);
    ConstructIdempotent(raw);
  }
}
