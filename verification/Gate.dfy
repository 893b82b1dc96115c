/** What the write gate refuses and what it lets in, field by field, and what that means for every stored memory. */
module Gate {
  import opened Seqs
  import opened Text
  import opened Models
  import opened Policy
  import opened StoreModel
  import opened StoreLaws

  // ----- The checks -----

  // None of the texts a writer controls matches: title, body, source reference and note, the tags joined by
  // spaces, and the thread. A note or thread that is missing counts as the empty text.
  predicate NoFieldMatches(m: Record, pattern: string -> bool) {
    && !pattern(m.title)
    && !pattern(m.body)
    && !pattern(m.source.ref)
    && !pattern(if m.source.note.Some? then m.source.note.value else "")
    && !pattern(Join(" ", m.tags))
    && !pattern(if m.thread.Some? then m.thread.value else "")
  }

  // A limit of 0 is none.
  predicate WithinLimit(size: nat, limit: int) {
    limit == 0 || size <= limit
  }

  predicate TagsWithin(tags: seq<string>, limit: int) {
    limit == 0 || forall i :: 0 <= i < |tags| ==> |tags[i]| <= limit
  }

  // The checks in the order in which they are made, under the reason given when one fails.
  datatype Check = Provenance | TitleSize | BodySize | TagCount | TagSize | Secrets | PersonalData {
    function Reason(): string {
      match this
      case Provenance => "missing_source"
      case TitleSize => "title_too_long"
      case BodySize => "body_too_long"
      case TagCount => "too_many_tags"
      case TagSize => "tag_too_long"
      case Secrets => "secret_detected"
      case PersonalData => "pii_detected"
    }

    predicate Passes(m: Record, cfg: Config) {
      match this
      case Provenance => cfg.requireSource ==> !Blank(m.source.ref)
      case TitleSize => WithinLimit(|m.title|, cfg.maxTitleChars)
      case BodySize => WithinLimit(|m.body|, cfg.maxBodyChars)
      case TagCount => WithinLimit(|m.tags|, cfg.maxTags)
      case TagSize => TagsWithin(m.tags, cfg.maxTagChars)
      case Secrets => cfg.scanSecrets ==> NoFieldMatches(m, cfg.secret)
      case PersonalData => cfg.piiMode == RejectPii ==> NoFieldMatches(m, cfg.pii)
    }
  }

  const CHECKS := [Provenance, TitleSize, BodySize, TagCount, TagSize, Secrets, PersonalData]

  predicate PassesAll(m: Record, cfg: Config) {
    forall i :: 0 <= i < |CHECKS| ==> CHECKS[i].Passes(m, cfg)
  }

  // The first check that fails.
  predicate FailsFirst(m: Record, cfg: Config, i: nat) {
    i < |CHECKS| && !CHECKS[i].Passes(m, cfg) && forall j: nat :: j < i ==> CHECKS[j].Passes(m, cfg)
  }

  lemma SizeChecks(m: Record, cfg: Config)
    ensures SizeProblem(m, cfg) ==
            if !TitleSize.Passes(m, cfg) then Some("title_too_long")
            else if !BodySize.Passes(m, cfg) then Some("body_too_long")
            else if !TagCount.Passes(m, cfg) then Some("too_many_tags")
            else if !TagSize.Passes(m, cfg) then Some("tag_too_long")
            else None
  {
    if t :| t in m.tags && |t| > cfg.maxTagChars {
      var i :| 0 <= i < |m.tags| && m.tags[i] == t;
    }
  }

  lemma FieldsAreControlled(m: Record, pattern: string -> bool)
    ensures NoFieldMatches(m, pattern) <==> !exists t :: t in ControlledText(m) && pattern(t)
  {
    var texts := ControlledText(m);
    assert texts[0] in texts && texts[1] in texts && texts[2] in texts
           && texts[3] in texts && texts[4] in texts && texts[5] in texts;
  }

  lemma ChecksInOrder()
    ensures |CHECKS| == 7
    ensures CHECKS[0] == Provenance && CHECKS[1] == TitleSize && CHECKS[2] == BodySize && CHECKS[3] == TagCount
    ensures CHECKS[4] == TagSize && CHECKS[5] == Secrets && CHECKS[6] == PersonalData
  {
  }

  // The position of the first failing check; the number of checks when all pass.
  function FirstFailing(m: Record, cfg: Config): (i: nat)
    ensures i <= |CHECKS| && (i < |CHECKS| ==> FailsFirst(m, cfg, i)) && (i == |CHECKS| ==> PassesAll(m, cfg))
  {
    if !Provenance.Passes(m, cfg) then 0
    else if !TitleSize.Passes(m, cfg) then 1
    else if !BodySize.Passes(m, cfg) then 2
    else if !TagCount.Passes(m, cfg) then 3
    else if !TagSize.Passes(m, cfg) then 4
    else if !Secrets.Passes(m, cfg) then 5
    else if !PersonalData.Passes(m, cfg) then 6
    else 7
  }

  // The gate, check by check: a memory is let in exactly if it passes them all, and otherwise refused for
  // the first one it fails.
  lemma GateDecides(m: Record, cfg: Config)
    ensures Review(m, cfg).Accepted? <==> PassesAll(m, cfg)
    ensures forall i: nat :: FailsFirst(m, cfg, i) ==> Review(m, cfg) == Denied(CHECKS[i].Reason())
  {
    ChecksInOrder();
    SizeChecks(m, cfg);
    FieldsAreControlled(m, cfg.secret);
    FieldsAreControlled(m, cfg.pii);
    var first := FirstFailing(m, cfg);
  }

  // ----- What is let in -----

  // In redact mode every text but the thread is redacted; the tags are normalised again, so that a tag is
  // kept if it is the normal form of a redacted one. All else is left alone.
  ghost predicate Redacted(m: Record, r: Record, cfg: Config) {
    && r.title == cfg.redact(m.title) && r.body == cfg.redact(m.body) && r.source.ref == cfg.redact(m.source.ref)
    && r.source.note == (if m.source.note == None || m.source.note == Some("") then m.source.note
                         else Some(cfg.redact(m.source.note.value)))
    && (forall t :: t in r.tags <==> t != "" && exists i :: 0 <= i < |m.tags| && Key(cfg.redact(m.tags[i])) == t)
    && r.source.kind == m.source.kind && r.thread == m.thread && r.namespace == m.namespace && r.kind == m.kind
    && r.links == m.links && r.expiresAt == m.expiresAt
  }

  // The texts are those offered.
  predicate AsOffered(m: Record, r: Record) {
    && r.title == m.title && r.body == m.body && r.source == m.source && r.tags == m.tags
    && r.thread == m.thread && r.namespace == m.namespace && r.kind == m.kind
    && r.links == m.links && r.expiresAt == m.expiresAt
  }

  ghost predicate LetIn(m: Record, r: Record, cfg: Config) {
    if cfg.piiMode == RedactPii then Redacted(m, r, cfg) else AsOffered(m, r)
  }

  lemma RedactionOfTags(tags: seq<string>, redact: string -> string, t: string)
    ensures t in NormalizeTags(Map(redact, tags)) <==> t != "" && exists i :: 0 <= i < |tags| && Key(redact(tags[i])) == t
  {
    var redacted := Map(redact, tags);
    NormalizeTagsMembers(redacted, t);
    if t in Map(Key, redacted) {
      var i :| 0 <= i < |redacted| && Map(Key, redacted)[i] == t;
      assert Key(redact(tags[i])) == t;
    }
    if i :| 0 <= i < |tags| && Key(redact(tags[i])) == t {
      assert Map(Key, redacted)[i] == t;
    }
  }

  lemma LetInContent(m: Record, cfg: Config)
    requires Review(m, cfg).Accepted?
    ensures var r := Review(m, cfg).record;
            && LetIn(m, r, cfg) && r.confidence == m.confidence && r.status == m.status
  {
    ReviewShape(m, cfg);
    forall t ensures t in RedactedCopy(m, cfg).tags <==>
                     t != "" && exists i :: 0 <= i < |m.tags| && Key(cfg.redact(m.tags[i])) == t
    {
      RedactionOfTags(m.tags, cfg.redact, t);
    }
  }

  // ----- Adding -----

  // An add is answered and recorded by the checks alone: what passes is stored last, under the new id, and
  // logged with its title and status; what fails is not stored, and the reason is told and logged.
  lemma AddIsDecided(cfg: Config, s: State, m: Record, id: string, at: string)
    requires Inv(s) && id !in Ids(s.rows)
    ensures var step := DoAdd(cfg, s, m, id, at);
            if PassesAll(m, cfg) then
              && step.reply.Stored? && step.state.rows == s.rows + [step.reply.record]
              && var r := step.reply.record;
                 && LetIn(m, r, cfg) && r.id == id && r.createdAt == at && r.updatedAt == at
                 && r.confidence == m.confidence && r.status == m.status
                 && step.state.events == s.events + [Event(m.namespace, at, Wrote(id, r.title, m.status))]
            else
              && step.state.rows == s.rows
              && exists i: nat :: FailsFirst(m, cfg, i) && step.reply == Refusal(CHECKS[i].Reason())
                                  && step.state.events == s.events + [Event(m.namespace, at, Rejected(CHECKS[i].Reason()))]
  {
    GateDecides(m, cfg);
    AddedAndForgotten(cfg, s, m, id, at);
    if PassesAll(m, cfg) {
      LetInContent(m, cfg);
    } else {
      var i := FirstFailing(m, cfg);
      assert FailsFirst(m, cfg, i);
    }
  }

  // ----- Every stored memory -----

  // The memory stored as r was offered by one of the operations, passed every check, and has kept what was
  // let in; later only its status, confidence and update time have changed.
  ghost predicate CameThrough(cfg: Config, ops: seq<Op>, r: Record) {
    exists i :: 0 <= i < |ops| && ops[i].Add? && ops[i].newId == r.id
                && PassesAll(ops[i].memory, cfg) && LetIn(ops[i].memory, r, cfg) && r.createdAt == ops[i].at
  }

  lemma SameContent(cfg: Config, ops: seq<Op>, r: Record, q: Record)
    requires CameThrough(cfg, ops, r)
    requires Amended(r, q)
    ensures CameThrough(cfg, ops, q)
  {
    var i :| 0 <= i < |ops| && ops[i].Add? && ops[i].newId == r.id
             && PassesAll(ops[i].memory, cfg) && LetIn(ops[i].memory, r, cfg) && r.createdAt == ops[i].at;
    assert LetIn(ops[i].memory, q, cfg);
  }

  lemma LongerRun(cfg: Config, ops: seq<Op>, op: Op, r: Record)
    requires CameThrough(cfg, ops, r)
    ensures CameThrough(cfg, ops + [op], r)
  {
    var i :| 0 <= i < |ops| && ops[i].Add? && ops[i].newId == r.id
             && PassesAll(ops[i].memory, cfg) && LetIn(ops[i].memory, r, cfg) && r.createdAt == ops[i].at;
    assert (ops + [op])[i] == ops[i];
  }

  // Only status, confidence and update time differ.
  ghost predicate Amended(was: Record, r: Record) {
    r == was.(updatedAt := r.updatedAt, status := r.status, confidence := r.confidence)
  }

  // Where a row of the next state comes from.
  lemma NextRow(cfg: Config, s: State, op: Op, r: Record)
    requires Inv(s) && r in Do(cfg, s, op).state.rows && (op.Add? ==> op.newId !in Ids(s.rows))
    ensures || (exists was :: was in s.rows && Amended(was, r))
            || (op.Add? && Review(op.memory, cfg).Accepted?
                && r == Review(op.memory, cfg).record.(id := op.newId, createdAt := op.at, updatedAt := op.at))
  {
    match op
    case Add(m, newId, at) => AddedAndForgotten(cfg, s, m, newId, at);
    case SetStatus(id, status, at) =>
      if Lookup(s.rows, id).Some? {
        var was := Lookup(s.rows, id).value;
        assert r in s.rows || r == was.(status := status, updatedAt := at);
        assert Amended(was, was.(status := status, updatedAt := at));
      }
    case SetConfidence(id, confidence, at) =>
      if Lookup(s.rows, id).Some? {
        var was := Lookup(s.rows, id).value;
        assert r in s.rows || r == was.(confidence := confidence, updatedAt := at);
        assert Amended(was, was.(confidence := confidence, updatedAt := at));
      }
    case Forget(id, at) => assert r in s.rows;
    case Query(q, clock, at) => QueryIsScan(cfg, s, q, clock, at);
    if r in s.rows {
      assert Amended(r, r);
    }
  }

  // After every run, every stored memory came through the gate.
  lemma {:induction false} StoredCameThrough(cfg: Config, ops: seq<Op>, r: Record)
    requires Lawful(cfg) && Legal(ops) && r in Run(cfg, EMPTY, ops).rows
    ensures CameThrough(cfg, ops, r)
  {
    var init, op := ops[..|ops| - 1], ops[|ops| - 1];
    var s := Run(cfg, EMPTY, init);
    SplitLast(ops);
    RunKeepsInv(cfg, init);
    NextRow(cfg, s, op, r);
    if was :| was in s.rows && Amended(was, r) {
      StoredCameThrough(cfg, init, was);
      KeptCameThrough(cfg, init, op, was, r);
    } else {
      AddedCameThrough(cfg, init, op, r);
    }
  }

  lemma KeptCameThrough(cfg: Config, ops: seq<Op>, op: Op, was: Record, r: Record)
    requires CameThrough(cfg, ops, was) && Amended(was, r)
    ensures CameThrough(cfg, ops + [op], r)
  {
    SameContent(cfg, ops, was, r);
    LongerRun(cfg, ops, op, r);
  }

  lemma AddedCameThrough(cfg: Config, ops: seq<Op>, op: Op, r: Record)
    requires op.Add? && Review(op.memory, cfg).Accepted?
    requires r == Review(op.memory, cfg).record.(id := op.newId, createdAt := op.at, updatedAt := op.at)
    ensures CameThrough(cfg, ops + [op], r)
  {
    GateDecides(op.memory, cfg);
    LetInContent(op.memory, cfg);
    assert (ops + [op])[|ops|] == op;
  }

  // Outside redact mode no stored memory holds a secret, if secrets are scanned for, nor personal data, if
  // that is rejected, in any field, and every size limit is kept.
  lemma StoredIsClean(cfg: Config, ops: seq<Op>, r: Record)
    requires Lawful(cfg) && Legal(ops) && r in Run(cfg, EMPTY, ops).rows && cfg.piiMode != RedactPii
    ensures cfg.scanSecrets ==> NoFieldMatches(r, cfg.secret)
    ensures cfg.piiMode == RejectPii ==> NoFieldMatches(r, cfg.pii)
    ensures WithinLimit(|r.title|, cfg.maxTitleChars) && WithinLimit(|r.body|, cfg.maxBodyChars)
    ensures WithinLimit(|r.tags|, cfg.maxTags) && TagsWithin(r.tags, cfg.maxTagChars)
  {
    StoredCameThrough(cfg, ops, r);
    var i :| 0 <= i < |ops| && ops[i].Add? && ops[i].newId == r.id
             && PassesAll(ops[i].memory, cfg) && LetIn(ops[i].memory, r, cfg) && r.createdAt == ops[i].at;
    PassingIsClean(ops[i].memory, cfg);
    assert AsOffered(ops[i].memory, r);
  }

  lemma PassingIsClean(m: Record, cfg: Config)
    requires PassesAll(m, cfg)
    ensures cfg.scanSecrets ==> NoFieldMatches(m, cfg.secret)
    ensures cfg.piiMode == RejectPii ==> NoFieldMatches(m, cfg.pii)
    ensures WithinLimit(|m.title|, cfg.maxTitleChars) && WithinLimit(|m.body|, cfg.maxBodyChars)
    ensures WithinLimit(|m.tags|, cfg.maxTags) && TagsWithin(m.tags, cfg.maxTagChars)
  {
    ChecksInOrder();
    assert CHECKS[1].Passes(m, cfg) && CHECKS[2].Passes(m, cfg) && CHECKS[3].Passes(m, cfg) && CHECKS[4].Passes(m, cfg)
           && CHECKS[5].Passes(m, cfg) && CHECKS[6].Passes(m, cfg);
  }
}
