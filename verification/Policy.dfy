/** The write gate: source, size, secret and personal-data checks, in that order. */
module Policy {
  import opened Seqs
  import opened Text
  import opened Models

  datatype PiiMode = RejectPii | RedactPii | IgnorePii

  // The pattern tables are the functions secret, pii and redact; a limit of 0 is disabled.
  datatype Config = Config(
    requireSource: bool,
    scanSecrets: bool,
    piiMode: PiiMode,
    maxTitleChars: int,
    maxBodyChars: int,
    maxTags: int,
    maxTagChars: int,
    secret: string -> bool,
    pii: string -> bool,
    redact: string -> string)

  // Redaction replaces matches by a placeholder that is not blank, so no text becomes blank.
  ghost predicate Lawful(cfg: Config) {
    forall s :: !Blank(s) ==> !Blank(cfg.redact(s))
  }

  datatype Verdict = Accepted(record: Record) | Denied(reason: string)

  function ControlledText(m: Record): seq<string> {
    [m.title, m.body, m.source.ref, m.source.note.GetOr(""), Join(" ", m.tags), m.thread.GetOr("")]
  }

  function SizeProblem(m: Record, cfg: Config): Option<string> {
    if cfg.maxTitleChars != 0 && |m.title| > cfg.maxTitleChars then Some("title_too_long")
    else if cfg.maxBodyChars != 0 && |m.body| > cfg.maxBodyChars then Some("body_too_long")
    else if cfg.maxTags != 0 && |m.tags| > cfg.maxTags then Some("too_many_tags")
    else if cfg.maxTagChars != 0 && exists t :: t in m.tags && |t| > cfg.maxTagChars then Some("tag_too_long")
    else None
  }

  // dataclasses.replace on the redacted fields, which normalises the tags again.
  function RedactedCopy(m: Record, cfg: Config): Record {
    m.(title := cfg.redact(m.title),
       body := cfg.redact(m.body),
       source := Source(m.source.kind, cfg.redact(m.source.ref),
                        if m.source.note.Some? && m.source.note.value != ""
                        then Some(cfg.redact(m.source.note.value)) else m.source.note),
       tags := NormalizeTags(Map(cfg.redact, m.tags)))
  }

  function Review(m: Record, cfg: Config): Verdict {
    if cfg.requireSource && Blank(m.source.ref) then Denied("missing_source")
    else if SizeProblem(m, cfg).Some? then Denied(SizeProblem(m, cfg).value)
    else if cfg.scanSecrets && exists t :: t in ControlledText(m) && cfg.secret(t) then Denied("secret_detected")
    else
      match cfg.piiMode
      case RejectPii =>
        if exists t :: t in ControlledText(m) && cfg.pii(t) then Denied("pii_detected") else Accepted(m)
      case RedactPii => Accepted(RedactedCopy(m, cfg))
      case IgnorePii => Accepted(m)
  }

  lemma RedactedCopyKeepsForm(m: Record, cfg: Config)
    requires WellFormed(m) && Lawful(cfg)
    ensures WellFormed(RedactedCopy(m, cfg))
  {
    NormalizeTagsIdempotent(Map(cfg.redact, m.tags));
    assert !Blank(m.source.ref) && !Blank(m.title) && !Blank(m.body);
    var c := RedactedCopy(m, cfg);
    assert c.source.Valid() && c.namespace.Valid() && c.links == m.links;
    assert c.thread == m.thread && c.expiresAt == m.expiresAt;
  }

  lemma ReviewShape(m: Record, cfg: Config)
    ensures Review(m, cfg).Accepted? ==>
              Review(m, cfg).record == if cfg.piiMode == RedactPii then RedactedCopy(m, cfg) else m
  {
  }

  // An accepted record is well-formed, and redaction changes neither scope nor status.
  lemma ReviewKeepsForm(m: Record, cfg: Config)
    requires WellFormed(m) && Lawful(cfg) && Review(m, cfg).Accepted?
    ensures WellFormed(Review(m, cfg).record)
    ensures var r := Review(m, cfg).record;
            r.namespace == m.namespace && r.thread == m.thread && r.status == m.status
  {
    ReviewShape(m, cfg);
    RedactedCopyKeepsForm(m, cfg);
  }

  // The gate reads only what a writer controls, so a stored record passes it whenever its content did.
  lemma ReviewReadsContent(m: Record, n: Record, cfg: Config)
    requires n == m.(id := n.id, createdAt := n.createdAt, updatedAt := n.updatedAt,
                     status := n.status, confidence := n.confidence)
    requires cfg.piiMode != RedactPii
    ensures Review(m, cfg).Accepted? <==> Review(n, cfg).Accepted?
  {
    assert ControlledText(m) == ControlledText(n);
  }
}
