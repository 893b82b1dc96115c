/** The governance curator: a reviewable plan of proposals that depends only on which memories there are. */
module Curator {
  import opened Seqs
  import opened Sorting
  import opened Text
  import opened ThreadScope
  import opened Models
  import opened PairDetection
  import opened Accumulate

  datatype Action =
    | QuarantineSuspectedSecret
    | ArchiveDuplicate
    | MergeNearDuplicates
    | ReviewContradiction
    | MarkExpired
    | ReviewLowConfidence
    | PromoteCandidate
  {
    function Name(): string {
      match this
      case QuarantineSuspectedSecret => "quarantine_suspected_secret"
      case ArchiveDuplicate => "archive_duplicate"
      case MergeNearDuplicates => "merge_near_duplicates"
      case ReviewContradiction => "review_contradiction"
      case MarkExpired => "mark_expired"
      case ReviewLowConfidence => "review_low_confidence"
      case PromoteCandidate => "promote_candidate"
    }

    // 0 for critical, 1 for high, 2 for medium, 3 for low.
    function SeverityRank(): nat {
      match this
      case QuarantineSuspectedSecret => 0
      case ArchiveDuplicate => 1
      case ReviewContradiction => 1
      case MarkExpired => 2
      case MergeNearDuplicates => 2
      case ReviewLowConfidence => 3
      case PromoteCandidate => 3
    }
  }

  datatype Reason =
    | SecretKind(kind: string)
    | TtlElapsed
    | BelowReviewFloor
    | MeetsPromotionFloor
    | SimilarTexts(similarity: real, exact: bool)
    | PossibleContradiction(overlap: real, byNegation: bool)

  datatype Ref = Ref(id: string, title: string, status: string, confidence: real, thread: Option<string>)

  datatype Proposal = Proposal(id: string, action: Action, ids: seq<string>, evidence: seq<Ref>, reason: Reason)

  // The secret patterns, title redaction, the proposal hash, and the tables of pair detection.
  datatype Toolkit = Toolkit(
    secretReason: string -> Option<string>,
    safeTitle: string -> string,
    proposalId: (string, seq<string>, string) -> string,
    vocabulary: Vocabulary)

  datatype Settings = Settings(lowConfidence: real, promoteMinConfidence: real, maxProposals: int)

  datatype Outcome = RefusedThread | Plan(memories: nat, truncated: bool, proposals: seq<Proposal>)

  // ----- Proposals -----

  function InCuratedScope(ns: Option<Namespace>, thread: Option<string>): Record -> bool {
    (m: Record) => (ns == None || m.namespace == ns.value) && AdmitsThread(m.thread, thread, None) == Ok(true)
  }

  function ScopeKey(ns: Option<Namespace>, thread: Option<string>): string {
    (if ns.Some? then ns.value.AsKey() else "*") + if thread.Some? then "#" + thread.value else ""
  }

  // by_id: of memories with one id, the last.
  function Directory(scoped: seq<Record>): map<string, Record> {
    if scoped == [] then map[]
    else
      var before, m := Directory(scoped[..|scoped| - 1]), scoped[|scoped| - 1];
      if m.id == "" then before else before[m.id := m]
  }

  function RefsFor(kit: Toolkit, byId: map<string, Record>): string -> seq<Ref> {
    (id: string) =>
      if id !in byId then []
      else
        var m := byId[id];
        [Ref(m.id, kit.safeTitle(m.title), m.status, m.confidence, m.thread)]
  }

  function Make(kit: Toolkit, byId: map<string, Record>, key: string, action: Action, ids: seq<string>, reason: Reason)
    : Proposal
  {
    Proposal(kit.proposalId(action.Name(), Sort(AtMost, ids), key), action, ids, FlatMap(RefsFor(kit, byId), ids), reason)
  }

  function SecretIn(kit: Toolkit, m: Record): Option<string> {
    kit.secretReason(m.title + "\n" + m.body + "\n" + m.source.ref)
  }

  predicate Expired(m: Record, now: string) {
    m.expiresAt.Some? && m.expiresAt.value != "" && AtMost(m.expiresAt.value, now) && m.status in {"active", "candidate"}
  }

  // Whether a rule about single memories applies, and with which reason.
  function RuleFor(kit: Toolkit, cfg: Settings, now: string, action: Action, m: Record): Option<Reason> {
    match action
    case QuarantineSuspectedSecret =>
      var kind := SecretIn(kit, m);
      if kind.Some? then Some(SecretKind(kind.value)) else None
    case MarkExpired => if Expired(m, now) then Some(TtlElapsed) else None
    case ReviewLowConfidence => if m.confidence < cfg.lowConfidence then Some(BelowReviewFloor) else None
    case PromoteCandidate =>
      if m.status == "candidate" && m.confidence >= cfg.promoteMinConfidence then Some(MeetsPromotionFloor) else None
    case _ => None
  }

  const MEMORY_ACTIONS := [QuarantineSuspectedSecret, MarkExpired, ReviewLowConfidence, PromoteCandidate]

  function Proposed(kit: Toolkit, cfg: Settings, now: string, byId: map<string, Record>, key: string, m: Record)
    : Action -> seq<Proposal>
  {
    (action: Action) =>
      match RuleFor(kit, cfg, now, action, m)
      case None => []
      case Some(reason) => [Make(kit, byId, key, action, [m.id], reason)]
  }

  function AboutMemory(kit: Toolkit, cfg: Settings, now: string, byId: map<string, Record>, key: string)
    : Record -> seq<Proposal>
  {
    (m: Record) => if m.id == "" then [] else FlatMap(Proposed(kit, cfg, now, byId, key, m), MEMORY_ACTIONS)
  }

  function ActionFor(p: Pair): Action {
    match p
    case Duplicate(_, _, _, exact) => if exact then ArchiveDuplicate else MergeNearDuplicates
    case Contradiction(_, _, _, _) => ReviewContradiction
  }

  function ReasonFor(p: Pair): Reason {
    match p
    case Duplicate(_, _, similarity, exact) => SimilarTexts(similarity, exact)
    case Contradiction(_, _, overlap, byNegation) => PossibleContradiction(overlap, byNegation)
  }

  function AboutPair(kit: Toolkit, byId: map<string, Record>, key: string): Pair -> Proposal {
    (p: Pair) => Make(kit, byId, key, ActionFor(p), [p.left, p.right], ReasonFor(p))
  }

  // Everything emitted, in order.
  function Emitted(kit: Toolkit, cfg: Settings, now: string, scoped: seq<Record>, key: string): seq<Proposal> {
    var byId := Directory(scoped);
    FlatMap(AboutMemory(kit, cfg, now, byId, key), scoped)
    + Map(AboutPair(kit, byId, key), DuplicatePairs(kit.vocabulary, scoped))
    + Map(AboutPair(kit, byId, key), ContradictionPairs(kit.vocabulary, scoped))
  }

  // ----- Suppression, order and truncation -----

  function Quarantined(proposals: seq<Proposal>): set<string> {
    set p | p in proposals && p.action.QuarantineSuspectedSecret? && p.ids != [] :: p.ids[0]
  }

  function Survives(secrets: set<string>): Proposal -> bool {
    (p: Proposal) => p.action.QuarantineSuspectedSecret? || forall id :: id in p.ids ==> id !in secrets
  }

  // By severity, then action name, then proposal id.
  predicate Outranks(p: Proposal, q: Proposal) {
    || p.action.SeverityRank() < q.action.SeverityRank()
    || (p.action.SeverityRank() == q.action.SeverityRank()
        && (Less(p.action.Name(), q.action.Name())
            || (p.action.Name() == q.action.Name() && AtMost(p.id, q.id))))
  }

  function Ordered(proposals: seq<Proposal>): seq<Proposal> {
    Sort(Outranks, Filter(Survives(Quarantined(proposals)), proposals))
  }

  function PlanFor(kit: Toolkit, cfg: Settings, memories: seq<Record>, ns: Option<Namespace>,
                   thread: Option<string>, now: string): Outcome
  {
    match NormalizeThread(thread)
    case Refused => RefusedThread
    case Ok(requested) =>
      var scoped := Filter(InCuratedScope(ns, requested), memories);
      var ordered := Ordered(Emitted(kit, cfg, now, scoped, ScopeKey(ns, requested)));
      Plan(|scoped|, |ordered| > cfg.maxProposals, Take(ordered, cfg.maxProposals))
  }

  // ----- The passes -----

  method ProposeAbout(kit: Toolkit, cfg: Settings, now: string, byId: map<string, Record>, key: string, m: Record)
    returns (proposals: seq<Proposal>)
    ensures proposals == FlatMap(Proposed(kit, cfg, now, byId, key, m), MEMORY_ACTIONS)
  {
    ghost var f := Proposed(kit, cfg, now, byId, key, m);
    FourActions(f);
    proposals := [];
    var kind := SecretIn(kit, m);
    if kind.Some? {
      proposals := proposals + [Make(kit, byId, key, QuarantineSuspectedSecret, [m.id], SecretKind(kind.value))];
    }
    assert proposals == f(QuarantineSuspectedSecret);
    if Expired(m, now) {
      proposals := proposals + [Make(kit, byId, key, MarkExpired, [m.id], TtlElapsed)];
    }
    assert proposals == f(QuarantineSuspectedSecret) + f(MarkExpired);
    if m.confidence < cfg.lowConfidence {
      proposals := proposals + [Make(kit, byId, key, ReviewLowConfidence, [m.id], BelowReviewFloor)];
    }
    assert proposals == f(QuarantineSuspectedSecret) + f(MarkExpired) + f(ReviewLowConfidence);
    if m.status == "candidate" && m.confidence >= cfg.promoteMinConfidence {
      proposals := proposals + [Make(kit, byId, key, PromoteCandidate, [m.id], MeetsPromotionFloor)];
    }
  }

  lemma FourActions(f: Action -> seq<Proposal>)
    ensures FlatMap(f, MEMORY_ACTIONS) ==
            f(QuarantineSuspectedSecret) + f(MarkExpired) + f(ReviewLowConfidence) + f(PromoteCandidate)
  {
    var a := MEMORY_ACTIONS;
    assert a[..3][..2] == a[..2] && a[..2][..1] == a[..1] && a[..1][..0] == [];
    assert FlatMap(f, a[..1]) == f(a[0]);
    assert FlatMap(f, a[..2]) == f(a[0]) + f(a[1]);
    assert FlatMap(f, a[..3]) == f(a[0]) + f(a[1]) + f(a[2]);
  }

  method BuildDirectory(scoped: seq<Record>) returns (byId: map<string, Record>)
    ensures byId == Directory(scoped)
  {
    byId := map[];
    for i := 0 to |scoped|
      invariant byId == Directory(scoped[..i])
    {
      assert scoped[..i + 1][..i] == scoped[..i];
      if scoped[i].id != "" {
        byId := byId[scoped[i].id := scoped[i]];
      }
    }
    assert scoped[..|scoped|] == scoped;
  }

  method EmitAll(kit: Toolkit, cfg: Settings, now: string, scoped: seq<Record>, key: string) returns (proposals: seq<Proposal>)
    ensures proposals == Emitted(kit, cfg, now, scoped, key)
  {
    var byId := BuildDirectory(scoped);
    proposals := [];
    for i := 0 to |scoped|
      invariant proposals == FlatMap(AboutMemory(kit, cfg, now, byId, key), scoped[..i])
    {
      assert scoped[..i + 1][..i] == scoped[..i];
      if scoped[i].id == "" {
        continue;
      }
      var about := ProposeAbout(kit, cfg, now, byId, key, scoped[i]);
      proposals := proposals + about;
    }
    assert scoped[..|scoped|] == scoped;
    var duplicates := FindDuplicatePairs(kit.vocabulary, scoped);
    var contradictions := FindContradictionPairs(kit.vocabulary, scoped);
    proposals := proposals + Map(AboutPair(kit, byId, key), duplicates) + Map(AboutPair(kit, byId, key), contradictions);
  }

  method Curate(kit: Toolkit, cfg: Settings, memories: seq<Record>, ns: Option<Namespace>,
                thread: Option<string>, now: string) returns (plan: Outcome)
    ensures plan == PlanFor(kit, cfg, memories, ns, thread, now)
  {
    var normalized := NormalizeThread(thread);
    if normalized.Refused? {
      return RefusedThread;
    }
    var scoped := Filter(InCuratedScope(ns, normalized.value), memories);
    var proposals := EmitAll(kit, cfg, now, scoped, ScopeKey(ns, normalized.value));
    var secrets := Quarantined(proposals);
    if secrets != {} {
      proposals := Filter(Survives(secrets), proposals);
    } else {
      FilterAll(Survives(secrets), proposals);
    }
    proposals := Sort(Outranks, proposals);
    plan := Plan(|scoped|, |proposals| > cfg.maxProposals, Take(proposals, cfg.maxProposals));
  }
}
