/** Which records can be built, what building changes in them, and how incomplete wire records are read. */
module RecordLaws {
  import opened Seqs
  import opened Text
  import opened ThreadScope
  import opened Models
  import opened Serialize

  lemma {:induction false} BlankMeans(s: string)
    ensures Blank(s) <==> AllSpace(s)
  {
    var n := TrimLeftRemoves(s);
    if Blank(s) {
      assert s[n..] == "" && s[..n] == s;
    } else {
      assert TrimLeft(s)[0] == s[n];
    }
  }

  // ----- Building a record -----

  ghost predicate GoodNamespace(ns: Namespace) {
    !AllSpace(ns.tenant) && !AllSpace(ns.project)
  }

  ghost predicate GoodSource(source: Source) {
    source.kind in {"doc", "url", "ticket", "commit", "run", "message"} && !AllSpace(source.ref)
  }

  predicate GoodLink(l: Link) {
    l.rel in {"relates_to", "supersedes", "contradicts", "derived_from"} && l.targetId != ""
  }

  // A thread is accepted when it is blank or, stripped and in lower case, not the name of a wildcard.
  ghost predicate GoodThread(t: Option<string>) {
    t == None || AllSpace(t.value)
    || Lower(Strip(t.value)) !in {"*", "all", "all_threads", "any", "any_thread", "cross_thread"}
  }

  ghost predicate Acceptable(raw: Record) {
    && GoodNamespace(raw.namespace) && GoodSource(raw.source)
    && (forall k :: 0 <= k < |raw.links| ==> GoodLink(raw.links[k]))
    && !AllSpace(raw.title) && !AllSpace(raw.body)
    && raw.kind in {"fact", "decision", "convention", "reference"}
    && raw.status in {"candidate", "active", "archived", "rejected"}
    && 0.0 <= raw.confidence <= 1.0
    && GoodThread(raw.thread)
  }

  // What building gives: blank threads and expiry times are dropped and others stripped, tags are normalised.
  ghost predicate BuiltFrom(raw: Record, m: Record) {
    && m.thread == (if raw.thread == None || AllSpace(raw.thread.value) then None else Some(Strip(raw.thread.value)))
    && m.expiresAt == (if raw.expiresAt == None || AllSpace(raw.expiresAt.value) then None else Some(Strip(raw.expiresAt.value)))
    && NoDup(m.tags) && (forall t :: t in m.tags <==> t != "" && exists k :: 0 <= k < |raw.tags| && t == Lower(Strip(raw.tags[k])))
    && m.(thread := raw.thread, expiresAt := raw.expiresAt, tags := raw.tags) == raw
  }

  lemma PartsAre(raw: Record)
    ensures raw.namespace.Valid() <==> GoodNamespace(raw.namespace)
    ensures raw.source.Valid() <==> GoodSource(raw.source)
    ensures (exists l :: l in raw.links && !l.Valid()) <==> exists k :: 0 <= k < |raw.links| && !GoodLink(raw.links[k])
  {
    BlankMeans(raw.namespace.tenant);
    BlankMeans(raw.namespace.project);
    BlankMeans(raw.source.ref);
    if k :| 0 <= k < |raw.links| && !GoodLink(raw.links[k]) {
      assert raw.links[k] in raw.links && !raw.links[k].Valid();
    }
    if l :| l in raw.links && !l.Valid() {
      var k :| 0 <= k < |raw.links| && raw.links[k] == l;
      assert !GoodLink(raw.links[k]);
    }
  }

  lemma ThreadIs(t: Option<string>)
    ensures NormalizeThread(t).Ok? <==> GoodThread(t)
    ensures GoodThread(t) ==> NormalizeThread(t).value == if t == None || AllSpace(t.value) then None else Some(Strip(t.value))
  {
    if t.Some? {
      BlankMeans(t.value);
      NormalizedThread(t.value);
    }
  }

  // A record is built exactly when each part is acceptable; and then only thread, expiry and tags change.
  lemma BuiltExactly(raw: Record)
    ensures Construct(raw).Some? <==> Acceptable(raw)
    ensures Acceptable(raw) ==> BuiltFrom(raw, Construct(raw).value)
  {
    PartsAre(raw);
    ThreadIs(raw.thread);
    BlankMeans(raw.title);
    BlankMeans(raw.body);
    if Acceptable(raw) {
      ExpiryIs(raw.expiresAt);
      TagsAre(raw.tags);
    }
  }

  lemma ExpiryIs(e: Option<string>)
    ensures NormalizeExpiry(e) == if e == None || AllSpace(e.value) then None else Some(Strip(e.value))
  {
    if e.Some? {
      BlankMeans(e.value);
      BlankIffStripped(e.value);
    }
  }

  lemma TagsAre(tags: seq<string>)
    ensures var r := NormalizeTags(tags);
            NoDup(r) && forall t :: t in r <==> t != "" && exists k :: 0 <= k < |tags| && t == Lower(Strip(tags[k]))
  {
    forall t ensures t in NormalizeTags(tags) <==> t != "" && exists k :: 0 <= k < |tags| && t == Lower(Strip(tags[k])) {
      NormalizeTagsMembers(tags, t);
      if t in Map(Key, tags) {
        var k :| 0 <= k < |tags| && Map(Key, tags)[k] == t;
      }
      if k :| 0 <= k < |tags| && t == Lower(Strip(tags[k])) {
        assert Map(Key, tags)[k] == t;
      }
    }
  }

  // ----- Reading a wire record -----

  // The keys that a reader can do without.
  datatype Dropped = Dropped(id: bool, kind: bool, tags: bool, links: bool, confidence: bool, status: bool,
                             createdAt: bool, updatedAt: bool, thread: bool, expiresAt: bool)

  function Lacking(d: Wire, drop: Dropped): Wire {
    d.(id := if drop.id then Absent else d.id,
       kind := if drop.kind then Absent else d.kind,
       tags := if drop.tags then Absent else d.tags,
       links := if drop.links then Absent else d.links,
       confidence := if drop.confidence then Absent else d.confidence,
       status := if drop.status then Absent else d.status,
       createdAt := if drop.createdAt then Absent else d.createdAt,
       updatedAt := if drop.updatedAt then Absent else d.updatedAt,
       thread := if drop.thread then Absent else d.thread,
       expiresAt := if drop.expiresAt then Absent else d.expiresAt)
  }

  // An active fact of full confidence, of the project, without tags, links and expiry, and last updated when it
  // was created.
  function Defaulted(m: Record, drop: Dropped): Record {
    Record(m.namespace, m.title, m.body, m.source,
           if drop.kind then "fact" else m.kind,
           if drop.tags then [] else m.tags,
           if drop.links then [] else m.links,
           if drop.confidence then 1.0 else m.confidence,
           if drop.status then "active" else m.status,
           if drop.id then "" else m.id,
           if drop.createdAt then "" else m.createdAt,
           if !drop.updatedAt then m.updatedAt else if drop.createdAt then "" else m.createdAt,
           if drop.thread then None else m.thread,
           if drop.expiresAt then None else m.expiresAt)
  }

  lemma DefaultsAreGood(m: Record, drop: Dropped)
    requires WellFormed(m)
    ensures WellFormed(Defaulted(m, drop))
  {
    assert Construct(m) == Some(m);
  }

  // What a complete wire record says, with defaults for what it leaves out; a null is no thread, no expiry,
  // no note and an unassigned id or time.
  ghost predicate Says(d: Wire, m: Record)
    requires Complete(d)
  {
    && m.namespace == Namespace(d.namespace.value.tenant.value, d.namespace.value.project.value)
    && m.title == d.title.value && m.body == d.body.value
    && m.source.kind == d.source.value.kind.value && m.source.ref == d.source.value.ref.value
    && m.source.note == (if d.source.value.note.Val? then Some(d.source.value.note.value) else None)
    && m.kind == (if d.kind.Val? then d.kind.value else "fact")
    && m.tags == (if d.tags.Val? then d.tags.value else [])
    && SaysLinks(if d.links.Val? then d.links.value else [], m.links)
    && m.confidence == (if d.confidence.Val? then d.confidence.value else 1.0)
    && m.status == (if d.status.Val? then d.status.value else "active")
    && m.id == (if d.id.Val? then d.id.value else "")
    && m.createdAt == (if d.createdAt.Val? then d.createdAt.value else "")
    && m.updatedAt == (if d.updatedAt.Val? then d.updatedAt.value else if d.updatedAt.Null? then "" else m.createdAt)
    && m.thread == (if d.thread.Val? then Some(d.thread.value) else None)
    && m.expiresAt == (if d.expiresAt.Val? then Some(d.expiresAt.value) else None)
  }

  ghost predicate SaysLinks(written: seq<WireLink>, links: seq<Link>) {
    |links| == |written| && forall k :: 0 <= k < |links| ==> written[k] == WireLink(Val(links[k].rel), Val(links[k].targetId))
  }

  // Nothing is read without a namespace, a title, a body and a source, nor from a null where a value is
  // expected, nor from a link without its two ends.
  predicate Complete(d: Wire) {
    && d.namespace.Val? && d.namespace.value.tenant.Val? && d.namespace.value.project.Val?
    && d.title.Val? && d.body.Val?
    && d.source.Val? && d.source.value.kind.Val? && d.source.value.ref.Val?
    && !d.kind.Null? && !d.tags.Null? && !d.links.Null? && !d.confidence.Null? && !d.status.Null?
    && (d.links.Val? ==> forall k :: 0 <= k < |d.links.value| ==> d.links.value[k].rel.Val? && d.links.value[k].targetId.Val?)
  }

  lemma LinksRead(written: seq<WireLink>)
    ensures (exists l :: l in written && !LinkReadable(l)) <==>
              exists k :: 0 <= k < |written| && !(written[k].rel.Val? && written[k].targetId.Val?)
    ensures (forall k :: 0 <= k < |written| ==> written[k].rel.Val? && written[k].targetId.Val?) ==>
              SaysLinks(written, Map(LinkFromDict, written))
  {
    if k :| 0 <= k < |written| && !(written[k].rel.Val? && written[k].targetId.Val?) {
      assert written[k] in written && !LinkReadable(written[k]);
    }
  }

  // A wire record is read exactly when it is complete and what it says is acceptable; and then what it says is built.
  lemma ReadExactly(d: Wire) returns (said: Record)
    ensures Complete(d) ==> Says(d, said)
    ensures MemoryFromDict(d).Some? <==> Complete(d) && Acceptable(said)
    ensures MemoryFromDict(d).Some? ==> BuiltFrom(said, MemoryFromDict(d).value)
  {
    LinksRead(d.links.GetOr([]));
    said := Record(Namespace("", ""), "", "", Source("", "", None), "", [], [], 0.0, "", "", "", "", None, None);
    if Complete(d) {
      said := Record(
        Namespace(d.namespace.value.tenant.value, d.namespace.value.project.value), d.title.value, d.body.value,
        Source(d.source.value.kind.value, d.source.value.ref.value, d.source.value.note.ToOption()),
        d.kind.GetOr("fact"), d.tags.GetOr([]), Map(LinkFromDict, d.links.GetOr([])),
        d.confidence.GetOr(1.0), d.status.GetOr("active"), d.id.GetOr(""), d.createdAt.GetOr(""),
        if d.updatedAt.Absent? then d.createdAt.GetOr("") else d.updatedAt.GetOr(""),
        d.thread.ToOption(), d.expiresAt.ToOption());
      BuiltExactly(said);
      assert MemoryFromDict(d) == Construct(said);
    }
  }

  // A memory whose optional keys are missing where it was written is read with the defaults in their place.
  lemma OldRecordsAreRead(m: Record, drop: Dropped)
    requires WellFormed(m)
    ensures MemoryFromDict(Lacking(MemoryToDict(m), drop)) == Some(Defaulted(m, drop))
  {
    LinksRoundTrip(m.links);
    DefaultsAreGood(m, drop);
    assert Map(LinkFromDict, []) == [];
    LackingIs(m, drop);
  }

  lemma LackingIs(m: Record, drop: Dropped)
    requires var written := Map(LinkToDict, m.links);
             (forall l :: l in written ==> LinkReadable(l)) && Map(LinkFromDict, written) == m.links
    requires Map(LinkFromDict, []) == []
    ensures MemoryFromDict(Lacking(MemoryToDict(m), drop)) == Construct(Defaulted(m, drop))
  {
  }
}
