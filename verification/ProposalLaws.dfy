/** What a plan proposes, read off the memories: which findings are due, with which contents, and that none is lost. */
module ProposalLaws {
  import opened Seqs
  import opened Sorting
  import opened Text
  import opened ThreadScope
  import opened Models
  import opened StoreModel
  import opened PairDetection
  import opened Accumulate
  import opened Curator
  import opened CuratorLaws
  import opened Ranking
  import opened Positions
  import Reals

  // ----- When a finding is due -----

  // The memories of the asked namespace, or of all, that are of the project or of the asked thread.
  ghost predicate Sees(ns: Option<Namespace>, requested: Option<string>, m: Record) {
    (ns == None || m.namespace == ns.value) && (m.thread == None || m.thread == requested)
  }

  // The words of a memory, and those that say what it is about.
  function Said(v: Vocabulary, m: Record): set<string> {
    set t | t in Words(v.normalize(m.title + " " + m.body), "")
  }

  function Topic(v: Vocabulary, m: Record): set<string> {
    set t | t in Said(v, m) && t !in v.stopwords && t !in v.negations && t !in v.obligations
            && forall k :: 0 <= k < |v.opposites| ==> t != v.opposites[k].0 && t != v.opposites[k].1
  }

  // At least 0.85 of all the words of two memories stand in both, or neither has words.
  ghost predicate MuchAlike(v: Vocabulary, a: Record, b: Record) {
    20 * |Said(v, a) * Said(v, b)| >= 17 * |Said(v, a) + Said(v, b)|
  }

  // The texts are equal once normalised, or at least 0.999 of their words are.
  ghost predicate SameText(v: Vocabulary, a: Record, b: Record) {
    || v.normalize(a.title + " " + a.body) == v.normalize(b.title + " " + b.body)
    || 1000 * |Said(v, a) * Said(v, b)| >= 999 * |Said(v, a) + Said(v, b)|
  }

  // Both are about something, and about half of that is common.
  ghost predicate SameTopic(v: Vocabulary, a: Record, b: Record) {
    && Topic(v, a) != {} && Topic(v, b) != {}
    && 2 * |Topic(v, a) * Topic(v, b)| >= |Topic(v, a) + Topic(v, b)|
  }

  ghost predicate Negates(v: Vocabulary, m: Record) {
    exists t :: t in Said(v, m) && t in v.negations
  }

  // One memory says one word of an opposite pair and the other memory the other word.
  ghost predicate Opposed(v: Vocabulary, a: Record, b: Record) {
    exists k :: 0 <= k < |v.opposites|
      && (|| (v.opposites[k].0 in Said(v, a) && v.opposites[k].1 in Said(v, b))
          || (v.opposites[k].1 in Said(v, a) && v.opposites[k].0 in Said(v, b)))
  }

  function Share(a: set<string>, b: set<string>): real {
    if a + b == {} then 1.0 else |a * b| as real / |a + b| as real
  }

  // What a memory alone calls for.
  ghost predicate Calls(kit: Toolkit, cfg: Settings, now: string, m: Record, p: Proposal) {
    match p.action
    case QuarantineSuspectedSecret =>
      var kind := kit.secretReason(m.title + "\n" + m.body + "\n" + m.source.ref);
      kind.Some? && p.reason == SecretKind(kind.value)
    case MarkExpired =>
      && m.expiresAt.Some? && m.expiresAt.value != "" && AtMost(m.expiresAt.value, now)
      && (m.status == "active" || m.status == "candidate") && p.reason == TtlElapsed
    case ReviewLowConfidence => m.confidence < cfg.lowConfidence && p.reason == BelowReviewFloor
    case PromoteCandidate =>
      m.status == "candidate" && m.confidence >= cfg.promoteMinConfidence && p.reason == MeetsPromotionFloor
    case _ => false
  }

  // What two memories together call for.
  ghost predicate CallFor(v: Vocabulary, a: Record, b: Record, p: Proposal) {
    match p.action
    case ArchiveDuplicate =>
      MuchAlike(v, a, b) && SameText(v, a, b) && p.reason == SimilarTexts(v.rounded(Share(Said(v, a), Said(v, b))), true)
    case MergeNearDuplicates =>
      MuchAlike(v, a, b) && !SameText(v, a, b) && p.reason == SimilarTexts(v.rounded(Share(Said(v, a), Said(v, b))), false)
    case ReviewContradiction =>
      && SameTopic(v, a, b) && (Negates(v, a) != Negates(v, b) || Opposed(v, a, b))
      && p.reason == PossibleContradiction(v.rounded(Share(Topic(v, a), Topic(v, b))), Negates(v, a) != Negates(v, b))
    case _ => false
  }

  ghost predicate NamesBoth(ids: seq<string>, a: Record, b: Record) {
    (ids == [a.id, b.id] || ids == [b.id, a.id]) && AtMost(ids[0], ids[1])
  }

  // Memory k is the last visible one with its id.
  ghost predicate LastOf(ns: Option<Namespace>, requested: Option<string>, ms: seq<Record>, id: string, k: nat) {
    && k < |ms| && ms[k].id == id && Sees(ns, requested, ms[k])
    && forall l :: k < l < |ms| && Sees(ns, requested, ms[l]) ==> ms[l].id != id
  }

  // What a plan shows of a memory.
  function RefTo(kit: Toolkit, m: Record): Ref {
    Ref(m.id, kit.safeTitle(m.title), m.status, m.confidence, m.thread)
  }

  ghost predicate Cites(kit: Toolkit, ns: Option<Namespace>, requested: Option<string>, ms: seq<Record>, id: string, ref: Ref) {
    exists k: nat :: LastOf(ns, requested, ms, id, k) && ref == RefTo(kit, ms[k])
  }

  ghost predicate AllCited(kit: Toolkit, ns: Option<Namespace>, requested: Option<string>, ms: seq<Record>,
                           ids: seq<string>, evidence: seq<Ref>)
  {
    |evidence| == |ids| && forall k :: 0 <= k < |ids| ==> Cites(kit, ns, requested, ms, ids[k], evidence[k])
  }

  // The hash of a proposal and what it cites: for each of its ids the last memory with it.
  ghost predicate Filled(kit: Toolkit, ns: Option<Namespace>, requested: Option<string>, ms: seq<Record>, p: Proposal) {
    && p.id == kit.proposalId(p.action.Name(), p.ids, ScopeKey(ns, requested))
    && AllCited(kit, ns, requested, ms, p.ids, p.evidence)
  }

  // Two visible memories with ids, the first standing before the second.
  ghost predicate SeenBefore(ns: Option<Namespace>, requested: Option<string>, ms: seq<Record>, a: Record, b: Record) {
    Sees(ns, requested, a) && Sees(ns, requested, b) && a.id != "" && b.id != "" && Before(ms, a, b)
  }

  ghost predicate CalledByOne(kit: Toolkit, cfg: Settings, now: string, ns: Option<Namespace>, requested: Option<string>,
                              ms: seq<Record>, p: Proposal)
  {
    exists m :: m in ms && Sees(ns, requested, m) && m.id != "" && p.ids == [m.id] && Calls(kit, cfg, now, m, p)
  }

  ghost predicate CalledByTwo(v: Vocabulary, ns: Option<Namespace>, requested: Option<string>, ms: seq<Record>, p: Proposal) {
    exists a, b :: SeenBefore(ns, requested, ms, a, b) && NamesBoth(p.ids, a, b) && CallFor(v, a, b, p)
  }

  // Another finding than a secret, about a memory that is flagged as one.
  ghost predicate Suppressed(kit: Toolkit, ns: Option<Namespace>, requested: Option<string>, ms: seq<Record>, p: Proposal) {
    p.action != QuarantineSuspectedSecret &&
    exists m :: m in ms && Sees(ns, requested, m) && m.id in p.ids
                && kit.secretReason(m.title + "\n" + m.body + "\n" + m.source.ref).Some?
  }

  ghost predicate Due(kit: Toolkit, cfg: Settings, now: string, ns: Option<Namespace>, requested: Option<string>,
                      ms: seq<Record>, p: Proposal)
  {
    && Filled(kit, ns, requested, ms, p) && !Suppressed(kit, ns, requested, ms, p)
    && (CalledByOne(kit, cfg, now, ns, requested, ms, p) || CalledByTwo(kit.vocabulary, ns, requested, ms, p))
  }

  // ----- The words of the definitions -----

  lemma SaidIsTokens(v: Vocabulary, m: Record)
    ensures Said(v, m) == TokensOf(v, m)
    ensures Topic(v, m) == SubjectTokens(v, m)
    ensures Negates(v, m) <==> Negated(v, m)
  {
    TogglesAre(v);
    if Negated(v, m) {
      var t :| t in TokensOf(v, m) * v.negations;
      assert t in Said(v, m);
    }
    if t :| t in Said(v, m) && t in v.negations {
      assert t in TokensOf(v, m) * v.negations;
    }
  }

  lemma TogglesAre(v: Vocabulary)
    ensures forall t :: t in Toggles(v) <==>
              exists k :: 0 <= k < |v.opposites| && (t == v.opposites[k].0 || t == v.opposites[k].1)
  {
    forall t ensures t in Toggles(v) <==> exists k :: 0 <= k < |v.opposites| && (t == v.opposites[k].0 || t == v.opposites[k].1) {
      if k :| 0 <= k < |v.opposites| && (t == v.opposites[k].0 || t == v.opposites[k].1) {
        assert v.opposites[k] in v.opposites;
      }
      if t in Toggles(v) {
        var p :| p in v.opposites && (t == p.0 || t == p.1);
        var k :| 0 <= k < |v.opposites| && v.opposites[k] == p;
      }
    }
  }

  lemma OpposedIs(v: Vocabulary, a: Record, b: Record)
    ensures Opposed(v, a, b) <==> Opposes(v, TokensOf(v, a) * Toggles(v), TokensOf(v, b) * Toggles(v))
  {
    var sa, sb := TokensOf(v, a) * Toggles(v), TokensOf(v, b) * Toggles(v);
    TogglesAre(v);
    SaidIsTokens(v, a);
    SaidIsTokens(v, b);
    if Opposed(v, a, b) {
      var k :| 0 <= k < |v.opposites|
               && ((v.opposites[k].0 in Said(v, a) && v.opposites[k].1 in Said(v, b))
                   || (v.opposites[k].1 in Said(v, a) && v.opposites[k].0 in Said(v, b)));
      var p := v.opposites[k];
      assert p in v.opposites && p.0 in Toggles(v) && p.1 in Toggles(v);
    }
    if p :| p in v.opposites && ((p.0 in sa && p.1 in sb) || (p.1 in sa && p.0 in sb)) {
      var k :| 0 <= k < |v.opposites| && v.opposites[k] == p;
    }
  }

  // A share is at least p/q exactly when q times its counter reaches p times its denominator.
  lemma ShareAtLeast(x: nat, n: nat, bound: real)
    requires n > 0
    ensures x as real / n as real >= bound <==> x as real >= Reals.Mul(n as real, bound)
  {
    var share, d := x as real / n as real, n as real;
    assert share * d == x as real;
    Reals.MulCommutes(d, share);
    if share >= bound {
      Reals.MulWeakOrder(d, bound, share);
    } else {
      Reals.MulWeakOrder(d, share, bound);
    }
  }

  lemma LikenessIs(v: Vocabulary, a: Record, b: Record)
    ensures Jaccard(v, a, b) == Share(Said(v, a), Said(v, b))
    ensures Jaccard(v, a, b) >= 0.85 <==> MuchAlike(v, a, b)
    ensures Jaccard(v, a, b) >= 0.999 <==> 1000 * |Said(v, a) * Said(v, b)| >= 999 * |Said(v, a) + Said(v, b)|
  {
    SaidIsTokens(v, a);
    SaidIsTokens(v, b);
    LikenessOfSets(Said(v, a), Said(v, b));
  }

  lemma LikenessOfSets(s: set<string>, t: set<string>)
    ensures Share(s, t) == if s == {} && t == {} then 1.0 else if s == {} || t == {} then 0.0 else Overlap(s, t)
    ensures Share(s, t) >= 0.85 <==> 20 * |s * t| >= 17 * |s + t|
    ensures Share(s, t) >= 0.999 <==> 1000 * |s * t| >= 999 * |s + t|
    ensures s != {} && t != {} ==> (Share(s, t) >= 0.5 <==> 2 * |s * t| >= |s + t|)
  {
    if s + t == {} {
      assert s == {} && t == {} && s * t == {};
    } else {
      if s == {} || t == {} {
        assert s * t == {};
      }
      var x, n := |s * t|, |s + t|;
      ShareAtLeast(x, n, 0.85);
      ShareAtLeast(x, n, 0.999);
      ShareAtLeast(x, n, 0.5);
    }
  }

  // ----- Findings about two memories -----

  lemma DuplicateIs(v: Vocabulary, a: Record, b: Record, pair: Pair)
    ensures pair in DuplicatePair(v)(a, b) <==>
              && MuchAlike(v, a, b)
              && pair == Duplicate(LowId(a, b), HighId(a, b), v.rounded(Share(Said(v, a), Said(v, b))), SameText(v, a, b))
  {
    LikenessIs(v, a, b);
  }

  lemma TopicIs(v: Vocabulary, a: Record, b: Record)
    ensures CommonSubject(v, a, b) == if SameTopic(v, a, b) then Some(Share(Topic(v, a), Topic(v, b))) else None
  {
    SaidIsTokens(v, a);
    SaidIsTokens(v, b);
    LikenessOfSets(Topic(v, a), Topic(v, b));
  }

  lemma ReasonIs(v: Vocabulary, a: Record, b: Record)
    ensures ReasonOf(v, a, b) == Negation <==> Negates(v, a) != Negates(v, b)
    ensures ReasonOf(v, a, b) == Agreement <==> Negates(v, a) == Negates(v, b) && !Opposed(v, a, b)
  {
    SaidIsTokens(v, a);
    SaidIsTokens(v, b);
    OpposedIs(v, a, b);
  }

  lemma ContradictionIs(v: Vocabulary, a: Record, b: Record, pair: Pair)
    ensures pair in ContradictionPair(v)(a, b) <==>
              && SameTopic(v, a, b) && (Negates(v, a) != Negates(v, b) || Opposed(v, a, b))
              && pair == Contradiction(LowId(a, b), HighId(a, b), v.rounded(Share(Topic(v, a), Topic(v, b))),
                                       Negates(v, a) != Negates(v, b))
  {
    TopicIs(v, a, b);
    ReasonIs(v, a, b);
    ContradictionsAre(v, LowId(a, b), HighId(a, b), CommonSubject(v, a, b), ReasonOf(v, a, b), pair);
  }

  lemma ContradictionsAre(v: Vocabulary, low: string, high: string, overlap: Option<real>, reason: PairDetection.Reason, pair: Pair)
    ensures pair in Contradictions(v, low, high, overlap, reason) <==>
              && overlap.Some? && reason != Agreement
              && pair == Contradiction(low, high, v.rounded(overlap.value), reason == Negation)
  {
  }

  // ----- Exactness -----

  ghost predicate NormalThreads(ms: seq<Record>) {
    forall m :: m in ms ==> NormalThread(m.thread)
  }

  lemma ScopeIs(ns: Option<Namespace>, requested: Option<string>, m: Record)
    requires NormalThread(m.thread) && NormalThread(requested)
    ensures InCuratedScope(ns, requested)(m) <==> Sees(ns, requested, m)
  {
    AdmittedExactly(m.thread, requested, None);
  }

  lemma ScopedBefore(ns: Option<Namespace>, requested: Option<string>, ms: seq<Record>, a: Record, b: Record)
    requires NormalThreads(ms) && NormalThread(requested)
    ensures Before(Filter(HasId, Filter(InCuratedScope(ns, requested), ms)), a, b) <==> SeenBefore(ns, requested, ms, a, b)
  {
    var inScope := InCuratedScope(ns, requested);
    FilterBefore(inScope, ms, a, b);
    FilterBefore(HasId, Filter(inScope, ms), a, b);
    if Before(ms, a, b) {
      ScopeIs(ns, requested, a);
      ScopeIs(ns, requested, b);
    }
  }

  lemma RelatedIs(f: (Record, Record) -> seq<Pair>, usable: seq<Record>, pair: Pair)
    ensures (exists i: nat, j: nat :: Related(f, usable, pair, i, j)) <==>
              exists a, b :: Before(usable, a, b) && pair in f(a, b)
  {
    if i: nat, j: nat :| Related(f, usable, pair, i, j) {
      assert Before(usable, usable[i], usable[j]);
    }
    if a, b :| Before(usable, a, b) && pair in f(a, b) {
      var i, j :| 0 <= i < j < |usable| && usable[i] == a && usable[j] == b;
      assert Related(f, usable, pair, i, j);
    }
  }

  lemma Detected(f: (Record, Record) -> seq<Pair>, ns: Option<Namespace>, requested: Option<string>, ms: seq<Record>, pair: Pair)
    requires NormalThreads(ms) && NormalThread(requested)
    ensures pair in Sort(PairOrder, Pairs(f, Filter(HasId, Filter(InCuratedScope(ns, requested), ms)))) <==>
              exists a, b :: SeenBefore(ns, requested, ms, a, b) && pair in f(a, b)
  {
    var scoped := Filter(InCuratedScope(ns, requested), ms);
    var usable := Filter(HasId, scoped);
    DetectionExact(f, scoped, pair);
    RelatedIs(f, usable, pair);
    forall a, b ensures Before(usable, a, b) <==> SeenBefore(ns, requested, ms, a, b) {
      ScopedBefore(ns, requested, ms, a, b);
    }
  }

  lemma IdsAre(ids: seq<string>, a: Record, b: Record)
    ensures NamesBoth(ids, a, b) <==> ids == [LowId(a, b), HighId(a, b)]
  {
    AtMostTotal(a.id, b.id);
    if AtMost(a.id, b.id) && AtMost(b.id, a.id) {
      AtMostAntisymmetric(a.id, b.id);
    }
  }

  // What a detected pair is turned into, its hash and evidence aside.
  ghost predicate Reports(p: Proposal, pair: Pair) {
    p.action == ActionFor(pair) && p.ids == [pair.left, pair.right] && p.reason == ReasonFor(pair)
  }

  // The pair that duplicate detection reports of two memories, if any, and that of contradiction detection.
  ghost function DuplicateOf(v: Vocabulary, a: Record, b: Record): Pair {
    Duplicate(LowId(a, b), HighId(a, b), v.rounded(Share(Said(v, a), Said(v, b))), SameText(v, a, b))
  }

  ghost function ContradictionOf(v: Vocabulary, a: Record, b: Record): Pair {
    Contradiction(LowId(a, b), HighId(a, b), v.rounded(Share(Topic(v, a), Topic(v, b))), Negates(v, a) != Negates(v, b))
  }

  ghost predicate Contradictory(v: Vocabulary, a: Record, b: Record) {
    SameTopic(v, a, b) && (Negates(v, a) != Negates(v, b) || Opposed(v, a, b))
  }

  lemma CallIsReport(v: Vocabulary, a: Record, b: Record, p: Proposal)
    ensures NamesBoth(p.ids, a, b) && CallFor(v, a, b, p) <==>
              || (MuchAlike(v, a, b) && Reports(p, DuplicateOf(v, a, b)))
              || (Contradictory(v, a, b) && Reports(p, ContradictionOf(v, a, b)))
  {
    IdsAre(p.ids, a, b);
  }

  lemma ReportIsFound(v: Vocabulary, a: Record, b: Record, pair: Pair)
    ensures pair in DuplicatePair(v)(a, b) <==> MuchAlike(v, a, b) && pair == DuplicateOf(v, a, b)
    ensures pair in ContradictionPair(v)(a, b) <==> Contradictory(v, a, b) && pair == ContradictionOf(v, a, b)
  {
    DuplicateIs(v, a, b, pair);
    ContradictionIs(v, a, b, pair);
  }

  // A finding about two memories is called for exactly when one of the two detections reports it.
  lemma CallIs(v: Vocabulary, a: Record, b: Record, p: Proposal)
    ensures NamesBoth(p.ids, a, b) && CallFor(v, a, b, p) <==>
              exists pair :: (pair in DuplicatePair(v)(a, b) || pair in ContradictionPair(v)(a, b)) && Reports(p, pair)
  {
    CallIsReport(v, a, b, p);
    ReportIsFound(v, a, b, DuplicateOf(v, a, b));
    ReportIsFound(v, a, b, ContradictionOf(v, a, b));
    if pair :| (pair in DuplicatePair(v)(a, b) || pair in ContradictionPair(v)(a, b)) && Reports(p, pair) {
      ReportIsFound(v, a, b, pair);
    }
  }

  // The hash and the evidence that the memories in scope give a proposal.
  ghost predicate MadeUp(kit: Toolkit, byId: map<string, Record>, key: string, p: Proposal) {
    && p.id == kit.proposalId(p.action.Name(), Sort(AtMost, p.ids), key)
    && p.evidence == FlatMap(RefsFor(kit, byId), p.ids)
  }

  lemma ReportedIs(kit: Toolkit, byId: map<string, Record>, key: string, pairs: seq<Pair>, p: Proposal)
    ensures p in Map(AboutPair(kit, byId, key), pairs) <==>
              MadeUp(kit, byId, key, p) && exists pair :: pair in pairs && Reports(p, pair)
  {
    var about := AboutPair(kit, byId, key);
    MapMembers(about, pairs, p);
    forall pair ensures p == about(pair) <==> MadeUp(kit, byId, key, p) && Reports(p, pair) {
    }
  }

  lemma PairsProposed(kit: Toolkit, byId: map<string, Record>, key: string, ns: Option<Namespace>, requested: Option<string>,
                      ms: seq<Record>, p: Proposal)
    requires NormalThreads(ms) && NormalThread(requested)
    ensures var scoped := Filter(InCuratedScope(ns, requested), ms);
            p in Map(AboutPair(kit, byId, key), DuplicatePairs(kit.vocabulary, scoped))
                 + Map(AboutPair(kit, byId, key), ContradictionPairs(kit.vocabulary, scoped)) <==>
              MadeUp(kit, byId, key, p) && CalledByTwo(kit.vocabulary, ns, requested, ms, p)
  {
    var v, scoped := kit.vocabulary, Filter(InCuratedScope(ns, requested), ms);
    ReportedIs(kit, byId, key, DuplicatePairs(v, scoped), p);
    ReportedIs(kit, byId, key, ContradictionPairs(v, scoped), p);
    ReportedByTwo(v, ns, requested, ms, p);
  }

  lemma ReportedByTwo(v: Vocabulary, ns: Option<Namespace>, requested: Option<string>, ms: seq<Record>, p: Proposal)
    requires NormalThreads(ms) && NormalThread(requested)
    ensures var scoped := Filter(InCuratedScope(ns, requested), ms);
            (exists pair :: (pair in DuplicatePairs(v, scoped) || pair in ContradictionPairs(v, scoped)) && Reports(p, pair)) <==>
              CalledByTwo(v, ns, requested, ms, p)
  {
    var scoped := Filter(InCuratedScope(ns, requested), ms);
    forall pair ensures pair in DuplicatePairs(v, scoped) <==>
                          exists a, b :: SeenBefore(ns, requested, ms, a, b) && pair in DuplicatePair(v)(a, b) {
      Detected(DuplicatePair(v), ns, requested, ms, pair);
    }
    forall pair ensures pair in ContradictionPairs(v, scoped) <==>
                          exists a, b :: SeenBefore(ns, requested, ms, a, b) && pair in ContradictionPair(v)(a, b) {
      Detected(ContradictionPair(v), ns, requested, ms, pair);
    }
    forall a, b
      ensures NamesBoth(p.ids, a, b) && CallFor(v, a, b, p) <==>
                exists pair :: (pair in DuplicatePair(v)(a, b) || pair in ContradictionPair(v)(a, b)) && Reports(p, pair)
    {
      CallIs(v, a, b, p);
    }
  }

  lemma CallsIs(kit: Toolkit, cfg: Settings, now: string, m: Record, p: Proposal)
    ensures Calls(kit, cfg, now, m, p) <==> p.action in MEMORY_ACTIONS && RuleFor(kit, cfg, now, p.action, m) == Some(p.reason)
  {
    var a := MEMORY_ACTIONS;
    assert a[0] == QuarantineSuspectedSecret && a[1] == MarkExpired && a[2] == ReviewLowConfidence && a[3] == PromoteCandidate;
  }

  lemma RulesProposed(kit: Toolkit, cfg: Settings, now: string, key: string, ns: Option<Namespace>, requested: Option<string>,
                      ms: seq<Record>, p: Proposal)
    requires NormalThreads(ms) && NormalThread(requested)
    ensures var scoped := Filter(InCuratedScope(ns, requested), ms);
            p in FlatMap(AboutMemory(kit, cfg, now, Directory(scoped), key), scoped) <==>
              MadeUp(kit, Directory(scoped), key, p) && CalledByOne(kit, cfg, now, ns, requested, ms, p)
  {
    var scoped := Filter(InCuratedScope(ns, requested), ms);
    RuleOrigin(kit, cfg, now, scoped, key, p);
    forall m ensures FromRule(kit, cfg, now, scoped, key, p, m) <==>
                       && MadeUp(kit, Directory(scoped), key, p) && m in ms && Sees(ns, requested, m)
                       && m.id != "" && p.ids == [m.id] && Calls(kit, cfg, now, m, p)
    {
      CallsIs(kit, cfg, now, m, p);
      if m in ms {
        ScopeIs(ns, requested, m);
      }
    }
  }

  lemma DirectoryNext(ns: Option<Namespace>, requested: Option<string>, ms: seq<Record>, id: string)
    requires NormalThreads(ms) && NormalThread(requested) && id != "" && ms != []
    ensures var inScope, init, z := InCuratedScope(ns, requested), ms[..|ms| - 1], ms[|ms| - 1];
            var before, byId := Directory(Filter(inScope, init)), Directory(Filter(inScope, ms));
            if z.id == id && Sees(ns, requested, z) then id in byId && byId[id] == z
            else (id in byId <==> id in before) && (id in before ==> byId[id] == before[id])
  {
    var inScope, init, z := InCuratedScope(ns, requested), ms[..|ms| - 1], ms[|ms| - 1];
    ScopeIs(ns, requested, z);
    if inScope(z) {
      assert Filter(inScope, ms)[..|Filter(inScope, init)|] == Filter(inScope, init);
    }
  }

  // No visible memory has the id.
  ghost predicate Unknown(ns: Option<Namespace>, requested: Option<string>, ms: seq<Record>, id: string) {
    forall l :: 0 <= l < |ms| && Sees(ns, requested, ms[l]) ==> ms[l].id != id
  }

  lemma LastOfLast(ns: Option<Namespace>, requested: Option<string>, ms: seq<Record>, id: string, k: nat)
    requires ms != [] && !(ms[|ms| - 1].id == id && Sees(ns, requested, ms[|ms| - 1]))
    ensures LastOf(ns, requested, ms[..|ms| - 1], id, k) ==> LastOf(ns, requested, ms, id, k) && k < |ms| - 1
    ensures Unknown(ns, requested, ms[..|ms| - 1], id) ==> Unknown(ns, requested, ms, id)
  {
    var n, init := |ms| - 1, ms[..|ms| - 1];
    assert forall l :: 0 <= l < n ==> init[l] == ms[l];
  }

  // The directory holds, for each id, the last memory with it; k is where that stands.
  lemma {:induction false} DirectoryIs(ns: Option<Namespace>, requested: Option<string>, ms: seq<Record>, id: string)
    returns (k: nat)
    requires NormalThreads(ms) && NormalThread(requested) && id != ""
    ensures var byId := Directory(Filter(InCuratedScope(ns, requested), ms));
            if id in byId then LastOf(ns, requested, ms, id, k) && byId[id] == ms[k] else Unknown(ns, requested, ms, id)
  {
    if ms == [] {
      return 0;
    }
    var n := |ms| - 1;
    k := DirectoryIs(ns, requested, ms[..n], id);
    DirectoryNext(ns, requested, ms, id);
    if ms[n].id == id && Sees(ns, requested, ms[n]) {
      k := n;
    } else {
      LastOfLast(ns, requested, ms, id, k);
    }
  }

  lemma CitesIs(kit: Toolkit, ns: Option<Namespace>, requested: Option<string>, ms: seq<Record>, id: string, ref: Ref)
    requires NormalThreads(ms) && NormalThread(requested) && id != ""
    ensures var byId := Directory(Filter(InCuratedScope(ns, requested), ms));
            Cites(kit, ns, requested, ms, id, ref) <==> RefsFor(kit, byId)(id) == [ref]
  {
    var last := DirectoryIs(ns, requested, ms, id);
    if k: nat :| LastOf(ns, requested, ms, id, k) && ref == RefTo(kit, ms[k]) {
      assert k == last;
    }
  }

  lemma KnownId(ns: Option<Namespace>, requested: Option<string>, ms: seq<Record>, m: Record)
    requires NormalThreads(ms) && NormalThread(requested) && m in ms && Sees(ns, requested, m) && m.id != ""
    ensures m.id in Directory(Filter(InCuratedScope(ns, requested), ms))
  {
    ScopeIs(ns, requested, m);
    InDirectory(Filter(InCuratedScope(ns, requested), ms), m);
  }

  lemma {:induction false} InDirectory(scoped: seq<Record>, m: Record)
    requires m in scoped && m.id != ""
    ensures m.id in Directory(scoped)
  {
    if m in scoped[..|scoped| - 1] {
      InDirectory(scoped[..|scoped| - 1], m);
    }
  }

  lemma OneId(ns: Option<Namespace>, requested: Option<string>, ms: seq<Record>, m: Record, ids: seq<string>)
    requires NormalThreads(ms) && NormalThread(requested)
    requires m in ms && Sees(ns, requested, m) && m.id != "" && ids == [m.id]
    ensures Sort(AtMost, ids) == ids
    ensures forall id :: id in ids ==> id != "" && id in Directory(Filter(InCuratedScope(ns, requested), ms))
  {
    assert [m.id][1..] == [];
    KnownId(ns, requested, ms, m);
  }

  lemma TwoAreSorted(ids: seq<string>, a: Record, b: Record)
    requires NamesBoth(ids, a, b)
    ensures Sort(AtMost, ids) == ids && |ids| == 2 && forall id :: id in ids ==> id == a.id || id == b.id
  {
    InOrder(ids[0], ids[1]);
    assert ids == [ids[0], ids[1]];
  }

  lemma TwoIds(ns: Option<Namespace>, requested: Option<string>, ms: seq<Record>, a: Record, b: Record, ids: seq<string>)
    requires NormalThreads(ms) && NormalThread(requested) && SeenBefore(ns, requested, ms, a, b) && NamesBoth(ids, a, b)
    ensures Sort(AtMost, ids) == ids && |ids| == 2
    ensures forall id :: id in ids ==> id != "" && id in Directory(Filter(InCuratedScope(ns, requested), ms))
  {
    BeforeMembers(ms, a, b);
    KnownId(ns, requested, ms, a);
    KnownId(ns, requested, ms, b);
    TwoAreSorted(ids, a, b);
  }

  lemma SortedIds(kit: Toolkit, cfg: Settings, now: string, ns: Option<Namespace>, requested: Option<string>,
                  ms: seq<Record>, p: Proposal)
    requires CalledByOne(kit, cfg, now, ns, requested, ms, p) || CalledByTwo(kit.vocabulary, ns, requested, ms, p)
    requires NormalThreads(ms) && NormalThread(requested)
    ensures Sort(AtMost, p.ids) == p.ids && |p.ids| <= 2
    ensures forall id :: id in p.ids ==> id != "" && id in Directory(Filter(InCuratedScope(ns, requested), ms))
  {
    if CalledByOne(kit, cfg, now, ns, requested, ms, p) {
      var m :| m in ms && Sees(ns, requested, m) && m.id != "" && p.ids == [m.id] && Calls(kit, cfg, now, m, p);
      OneId(ns, requested, ms, m, p.ids);
    } else {
      var a, b :| SeenBefore(ns, requested, ms, a, b) && NamesBoth(p.ids, a, b) && CallFor(kit.vocabulary, a, b, p);
      TwoIds(ns, requested, ms, a, b, p.ids);
    }
  }

  ghost predicate AllShown(kit: Toolkit, byId: map<string, Record>, ids: seq<string>, evidence: seq<Ref>) {
    |evidence| == |ids| && forall k :: 0 <= k < |ids| ==> RefsFor(kit, byId)(ids[k]) == [evidence[k]]
  }

  lemma CitedIsShown(kit: Toolkit, ns: Option<Namespace>, requested: Option<string>, ms: seq<Record>,
                     ids: seq<string>, evidence: seq<Ref>)
    requires NormalThreads(ms) && NormalThread(requested) && forall id :: id in ids ==> id != ""
    ensures AllCited(kit, ns, requested, ms, ids, evidence) <==>
              AllShown(kit, Directory(Filter(InCuratedScope(ns, requested), ms)), ids, evidence)
  {
    var byId := Directory(Filter(InCuratedScope(ns, requested), ms));
    if |evidence| == |ids| {
      if AllCited(kit, ns, requested, ms, ids, evidence) {
        forall k | 0 <= k < |ids| ensures RefsFor(kit, byId)(ids[k]) == [evidence[k]] {
          assert ids[k] in ids;
          CitesIs(kit, ns, requested, ms, ids[k], evidence[k]);
        }
      }
      if AllShown(kit, byId, ids, evidence) {
        forall k | 0 <= k < |ids| ensures Cites(kit, ns, requested, ms, ids[k], evidence[k]) {
          assert ids[k] in ids;
          CitesIs(kit, ns, requested, ms, ids[k], evidence[k]);
        }
      }
    }
  }

  lemma RefsAre(kit: Toolkit, byId: map<string, Record>, ids: seq<string>, evidence: seq<Ref>)
    requires forall id :: id in ids ==> id in byId
    ensures evidence == FlatMap(RefsFor(kit, byId), ids) <==> AllShown(kit, byId, ids, evidence)
  {
    var refs := RefsFor(kit, byId);
    var ref := (id: string) => if id in byId then RefTo(kit, byId[id]) else Ref("", "", "", 0.0, None);
    FlatMapSingles(refs, ref, ids);
    forall k | 0 <= k < |ids| && |evidence| == |ids| ensures refs(ids[k]) == [evidence[k]] <==> evidence[k] == ref(ids[k]) {
      assert refs(ids[k]) == [ref(ids[k])];
    }
  }

  lemma EvidenceIs(kit: Toolkit, ns: Option<Namespace>, requested: Option<string>, ms: seq<Record>,
                   ids: seq<string>, evidence: seq<Ref>)
    requires NormalThreads(ms) && NormalThread(requested)
    requires forall id :: id in ids ==> id != "" && id in Directory(Filter(InCuratedScope(ns, requested), ms))
    ensures evidence == FlatMap(RefsFor(kit, Directory(Filter(InCuratedScope(ns, requested), ms))), ids) <==>
              AllCited(kit, ns, requested, ms, ids, evidence)
  {
    RefsAre(kit, Directory(Filter(InCuratedScope(ns, requested), ms)), ids, evidence);
    CitedIsShown(kit, ns, requested, ms, ids, evidence);
  }

  lemma FilledIs(kit: Toolkit, cfg: Settings, now: string, ns: Option<Namespace>, requested: Option<string>,
                 ms: seq<Record>, p: Proposal)
    requires CalledByOne(kit, cfg, now, ns, requested, ms, p) || CalledByTwo(kit.vocabulary, ns, requested, ms, p)
    requires NormalThreads(ms) && NormalThread(requested)
    ensures MadeUp(kit, Directory(Filter(InCuratedScope(ns, requested), ms)), ScopeKey(ns, requested), p) <==>
              Filled(kit, ns, requested, ms, p)
  {
    SortedIds(kit, cfg, now, ns, requested, ms, p);
    EvidenceIs(kit, ns, requested, ms, p.ids, p.evidence);
  }

  // Everything that a memory or two memories call for is emitted, and nothing else.
  lemma EmittedExactly(kit: Toolkit, cfg: Settings, now: string, ns: Option<Namespace>, requested: Option<string>,
                       ms: seq<Record>, p: Proposal)
    requires NormalThreads(ms) && NormalThread(requested)
    ensures p in EmittedIn(kit, cfg, ms, ns, requested, now) <==>
              && Filled(kit, ns, requested, ms, p)
              && (CalledByOne(kit, cfg, now, ns, requested, ms, p) || CalledByTwo(kit.vocabulary, ns, requested, ms, p))
  {
    var scoped, key := Filter(InCuratedScope(ns, requested), ms), ScopeKey(ns, requested);
    RulesProposed(kit, cfg, now, key, ns, requested, ms, p);
    PairsProposed(kit, Directory(scoped), key, ns, requested, ms, p);
    if CalledByOne(kit, cfg, now, ns, requested, ms, p) || CalledByTwo(kit.vocabulary, ns, requested, ms, p) {
      FilledIs(kit, cfg, now, ns, requested, ms, p);
    }
  }

  // ----- The plan -----

  lemma SuppressedIs(kit: Toolkit, cfg: Settings, now: string, ns: Option<Namespace>, requested: Option<string>,
                     ms: seq<Record>, p: Proposal)
    requires NormalThreads(ms) && NormalThread(requested) && p in EmittedIn(kit, cfg, ms, ns, requested, now)
    ensures Survives(Quarantined(EmittedIn(kit, cfg, ms, ns, requested, now)))(p) <==> !Suppressed(kit, ns, requested, ms, p)
  {
    var scoped, key := Filter(InCuratedScope(ns, requested), ms), ScopeKey(ns, requested);
    var all := EmittedIn(kit, cfg, ms, ns, requested, now);
    forall m | m in ms && Sees(ns, requested, m) && m.id != "" && SecretIn(kit, m).Some? ensures m.id in Quarantined(all) {
      ScopeIs(ns, requested, m);
      SecretsAreQuarantined(kit, cfg, now, scoped, key, m);
    }
    forall id | id in Quarantined(all) ensures exists m :: m in ms && Sees(ns, requested, m) && m.id == id && SecretIn(kit, m).Some? {
      var q :| q in all && q.action.QuarantineSuspectedSecret? && q.ids != [] && q.ids[0] == id;
      EmittedExactly(kit, cfg, now, ns, requested, ms, q);
    }
    EmittedExactly(kit, cfg, now, ns, requested, ms, p);
    SortedIds(kit, cfg, now, ns, requested, ms, p);
  }

  // Before truncation a plan holds exactly what is due.
  lemma OrderedExactly(kit: Toolkit, cfg: Settings, now: string, ns: Option<Namespace>, requested: Option<string>,
                       ms: seq<Record>, p: Proposal)
    requires NormalThreads(ms) && NormalThread(requested)
    ensures p in Ordered(EmittedIn(kit, cfg, ms, ns, requested, now)) <==> Due(kit, cfg, now, ns, requested, ms, p)
  {
    var all := EmittedIn(kit, cfg, ms, ns, requested, now);
    SortMembers(Outranks, Filter(Survives(Quarantined(all)), all));
    EmittedExactly(kit, cfg, now, ns, requested, ms, p);
    if p in all {
      SuppressedIs(kit, cfg, now, ns, requested, ms, p);
    }
  }

  // A plan proposes only what is due; and what is due is proposed, unless as many proposals as allowed are
  // kept and each of them comes before it.
  lemma PlanIsDue(kit: Toolkit, cfg: Settings, ms: seq<Record>, ns: Option<Namespace>, thread: Option<string>,
                  now: string, p: Proposal)
    requires NormalThreads(ms) && NormalizeThread(thread).Ok? && cfg.maxProposals >= 0
    ensures var plan, due := PlanFor(kit, cfg, ms, ns, thread, now), Due(kit, cfg, now, ns, NormalizeThread(thread).value, ms, p);
            && plan.Plan?
            && (p in plan.proposals ==> due)
            && (due && p !in plan.proposals ==>
                  plan.truncated && |plan.proposals| == cfg.maxProposals && forall q :: q in plan.proposals ==> Outranks(q, p))
            && |plan.proposals| <= cfg.maxProposals
  {
    var requested := NormalizeThread(thread).value;
    NormalizeThreadIdempotent(thread);
    OrderedExactly(kit, cfg, now, ns, requested, ms, p);
    TruncationKeepsTheBest(kit, cfg, ms, ns, thread, now);
  }

  // A plan counts the visible memories.
  lemma PlanCounts(kit: Toolkit, cfg: Settings, ms: seq<Record>, ns: Option<Namespace>, thread: Option<string>, now: string)
    returns (visible: seq<nat>)
    requires NormalThreads(ms) && NormalizeThread(thread).Ok?
    ensures PlanFor(kit, cfg, ms, ns, thread, now).memories == |visible| && Rising(visible, |ms|)
    ensures forall i: nat :: i < |ms| ==> (Picked(visible, i) <==> Sees(ns, NormalizeThread(thread).value, ms[i]))
  {
    var requested := NormalizeThread(thread).value;
    NormalizeThreadIdempotent(thread);
    visible := FilterPicks(InCuratedScope(ns, requested), ms);
    forall i: nat | i < |ms| ensures InCuratedScope(ns, requested)(ms[i]) <==> Sees(ns, requested, ms[i]) {
      ScopeIs(ns, requested, ms[i]);
    }
  }

  // How urgent an action is, the most urgent first.
  function Urgency(a: Curator.Action): nat {
    if a == QuarantineSuspectedSecret then 0
    else if a in {ArchiveDuplicate, ReviewContradiction} then 1
    else if a in {MarkExpired, MergeNearDuplicates} then 2
    else 3
  }

  // Proposals come by urgency; equally urgent ones by the name of their action, and then by their hash.
  lemma PlanOrder(kit: Toolkit, cfg: Settings, ms: seq<Record>, ns: Option<Namespace>, thread: Option<string>,
                  now: string, i: nat, j: nat)
    requires NormalizeThread(thread).Ok? && i < j < |PlanFor(kit, cfg, ms, ns, thread, now).proposals|
    ensures var proposals := PlanFor(kit, cfg, ms, ns, thread, now).proposals;
            var p, q := proposals[i], proposals[j];
            && Urgency(p.action) <= Urgency(q.action)
            && (Urgency(p.action) == Urgency(q.action) ==> AtMost(p.action.Name(), q.action.Name()))
            && (p.action == q.action ==> AtMost(p.id, q.id))
  {
    var all := EmittedIn(kit, cfg, ms, ns, NormalizeThread(thread).value, now);
    OutranksIsPreorder();
    SortSorts(Outranks, Filter(Survives(Quarantined(all)), all));
    OutranksMeans(Ordered(all)[i], Ordered(all)[j]);
  }

  lemma OutranksMeans(p: Proposal, q: Proposal)
    requires Outranks(p, q)
    ensures Urgency(p.action) <= Urgency(q.action)
    ensures Urgency(p.action) == Urgency(q.action) ==> AtMost(p.action.Name(), q.action.Name())
    ensures p.action == q.action ==> AtMost(p.id, q.id)
  {
    Severities(p.action);
    Severities(q.action);
    OrderLaws();
  }

  lemma Severities(a: Curator.Action)
    ensures a.SeverityRank() == Urgency(a)
  {
  }

  // ----- Each once -----

  lemma TellsApart(v: Vocabulary, f: (Record, Record) -> seq<Pair>, usable: seq<Record>)
    requires f == DuplicatePair(v) || f == ContradictionPair(v)
    requires NoDup(Ids(usable))
    ensures TellsPairs(f, usable)
  {
    forall i, j | 0 <= i < j < |usable| ensures NoDup(f(usable[i], usable[j])) {
    }
    forall i, j, k, l, y
      | 0 <= i < j < |usable| && 0 <= k < l < |usable| && y in f(usable[i], usable[j]) && y in f(usable[k], usable[l])
      ensures i == k && j == l
    {
      PairIds(v, y, usable[i], usable[j]);
      PairIds(v, y, usable[k], usable[l]);
      SameTwo(usable, i, j, k, l);
    }
  }

  lemma SameTwo(usable: seq<Record>, i: nat, j: nat, k: nat, l: nat)
    requires NoDup(Ids(usable)) && i < j < |usable| && k < l < |usable|
    requires LowId(usable[i], usable[j]) == LowId(usable[k], usable[l])
    requires HighId(usable[i], usable[j]) == HighId(usable[k], usable[l])
    ensures i == k && j == l
  {
    assert forall x, y :: 0 <= x < y < |usable| ==> Ids(usable)[x] != Ids(usable)[y];
    assert forall x :: 0 <= x < |usable| ==> Ids(usable)[x] == usable[x].id;
  }

  lemma DetectedOnce(v: Vocabulary, f: (Record, Record) -> seq<Pair>, scoped: seq<Record>)
    requires f == DuplicatePair(v) || f == ContradictionPair(v)
    requires NoDup(Ids(scoped))
    ensures NoDup(Sort(PairOrder, Pairs(f, Filter(HasId, scoped))))
  {
    var usable := Filter(HasId, scoped);
    KeepsDistinct(IdOf, HasId, scoped);
    TellsApart(v, f, usable);
    PairsDistinct(f, usable);
    SortPermutes(PairOrder, Pairs(f, usable));
    NoDupPermuted(Pairs(f, usable), Sort(PairOrder, Pairs(f, usable)));
  }

  lemma ReportedOnce(kit: Toolkit, byId: map<string, Record>, key: string, v: Vocabulary,
                     f: (Record, Record) -> seq<Pair>, scoped: seq<Record>, pairs: seq<Pair>)
    requires f == DuplicatePair(v) || f == ContradictionPair(v)
    requires NoDup(Ids(scoped)) && pairs == Sort(PairOrder, Pairs(f, Filter(HasId, scoped)))
    ensures NoDup(Map(AboutPair(kit, byId, key), pairs))
  {
    DetectedOnce(v, f, scoped);
    var about := AboutPair(kit, byId, key);
    forall i, j | 0 <= i < j < |pairs| && about(pairs[i]) == about(pairs[j]) ensures false {
      SamePair(kit, byId, key, pairs[i], pairs[j]);
      PairSource(f, scoped, pairs[i]);
      PairSource(f, scoped, pairs[j]);
      var a, b :| a in scoped && b in scoped && pairs[i] in f(a, b);
      var c, d :| c in scoped && d in scoped && pairs[j] in f(c, d);
      PairDetermined(v, scoped, pairs[i], a, b, pairs[j], c, d);
    }
  }

  lemma RuledOnce(kit: Toolkit, cfg: Settings, now: string, byId: map<string, Record>, key: string, scoped: seq<Record>)
    requires NoDup(Ids(scoped))
    ensures NoDup(FlatMap(AboutMemory(kit, cfg, now, byId, key), scoped))
  {
    var about := AboutMemory(kit, cfg, now, byId, key);
    forall m | m in scoped ensures NoDup(about(m)) {
      OfOneMemory(kit, cfg, now, byId, key, m);
    }
    forall i, j, p | 0 <= i < j < |scoped| && p in about(scoped[i]) ensures p !in about(scoped[j]) {
      assert Ids(scoped)[i] != Ids(scoped)[j];
      AboutItself(kit, cfg, now, byId, key, scoped[i], p);
      AboutItself(kit, cfg, now, byId, key, scoped[j], p);
    }
    FlatMapDistinct(about, scoped);
  }

  lemma AboutItself(kit: Toolkit, cfg: Settings, now: string, byId: map<string, Record>, key: string, m: Record, p: Proposal)
    ensures p in AboutMemory(kit, cfg, now, byId, key)(m) ==> p.ids == [m.id] && p.action in MEMORY_ACTIONS
  {
    if m.id != "" {
      FlatMapMembers(Proposed(kit, cfg, now, byId, key, m), MEMORY_ACTIONS, p);
    }
  }

  lemma OfOneMemory(kit: Toolkit, cfg: Settings, now: string, byId: map<string, Record>, key: string, m: Record)
    ensures NoDup(AboutMemory(kit, cfg, now, byId, key)(m))
  {
    if m.id != "" {
      var f := Proposed(kit, cfg, now, byId, key, m);
      assert MEMORY_ACTIONS == [QuarantineSuspectedSecret, MarkExpired, ReviewLowConfidence, PromoteCandidate];
      forall a | a in MEMORY_ACTIONS ensures NoDup(f(a)) {
      }
      forall i, j, p | 0 <= i < j < |MEMORY_ACTIONS| && p in f(MEMORY_ACTIONS[i]) ensures p !in f(MEMORY_ACTIONS[j]) {
        assert p.action == MEMORY_ACTIONS[i];
      }
      FlatMapDistinct(f, MEMORY_ACTIONS);
    }
  }

  lemma EmittedOnce(kit: Toolkit, cfg: Settings, now: string, scoped: seq<Record>, key: string)
    requires NoDup(Ids(scoped))
    ensures NoDup(Emitted(kit, cfg, now, scoped, key))
  {
    var byId := Directory(scoped);
    var v, about := kit.vocabulary, AboutPair(kit, byId, key);
    var x := FlatMap(AboutMemory(kit, cfg, now, byId, key), scoped);
    var y, z := Map(about, DuplicatePairs(v, scoped)), Map(about, ContradictionPairs(v, scoped));
    RuledOnce(kit, cfg, now, byId, key, scoped);
    ReportedOnce(kit, byId, key, v, DuplicatePair(v), scoped, DuplicatePairs(v, scoped));
    ReportedOnce(kit, byId, key, v, ContradictionPair(v), scoped, ContradictionPairs(v, scoped));
    forall p | p in x ensures p.action in MEMORY_ACTIONS {
      RuleActions(kit, cfg, now, byId, key, scoped, p);
    }
    forall p | p in y ensures p.action == ArchiveDuplicate || p.action == MergeNearDuplicates {
      DuplicateActions(kit, byId, key, scoped, p);
    }
    forall p | p in z ensures p.action == ReviewContradiction {
      ContradictionActions(kit, byId, key, scoped, p);
    }
    ThreeDistinct(x, y, z);
  }

  lemma ThreeDistinct(x: seq<Proposal>, y: seq<Proposal>, z: seq<Proposal>)
    requires NoDup(x) && NoDup(y) && NoDup(z)
    requires forall p :: p in x ==> p.action in MEMORY_ACTIONS
    requires forall p :: p in y ==> p.action == ArchiveDuplicate || p.action == MergeNearDuplicates
    requires forall p :: p in z ==> p.action == ReviewContradiction
    ensures NoDup(x + y + z)
  {
    DisjointDistinct(x, y);
    DisjointDistinct(x + y, z);
  }

  lemma RuleActions(kit: Toolkit, cfg: Settings, now: string, byId: map<string, Record>, key: string, scoped: seq<Record>, p: Proposal)
    requires p in FlatMap(AboutMemory(kit, cfg, now, byId, key), scoped)
    ensures p.action in MEMORY_ACTIONS
  {
    FlatMapMembers(AboutMemory(kit, cfg, now, byId, key), scoped, p);
    var m :| m in scoped && p in AboutMemory(kit, cfg, now, byId, key)(m);
    AboutItself(kit, cfg, now, byId, key, m, p);
  }

  lemma DuplicateActions(kit: Toolkit, byId: map<string, Record>, key: string, scoped: seq<Record>, p: Proposal)
    requires p in Map(AboutPair(kit, byId, key), DuplicatePairs(kit.vocabulary, scoped))
    ensures p.action == ArchiveDuplicate || p.action == MergeNearDuplicates
  {
    ReportedIs(kit, byId, key, DuplicatePairs(kit.vocabulary, scoped), p);
    var pair :| pair in DuplicatePairs(kit.vocabulary, scoped) && Reports(p, pair);
    PairSource(DuplicatePair(kit.vocabulary), scoped, pair);
    var a, b :| pair in DuplicatePair(kit.vocabulary)(a, b);
    DuplicateIds(kit.vocabulary, pair, a, b);
  }

  lemma ContradictionActions(kit: Toolkit, byId: map<string, Record>, key: string, scoped: seq<Record>, p: Proposal)
    requires p in Map(AboutPair(kit, byId, key), ContradictionPairs(kit.vocabulary, scoped))
    ensures p.action == ReviewContradiction
  {
    ReportedIs(kit, byId, key, ContradictionPairs(kit.vocabulary, scoped), p);
    var pair :| pair in ContradictionPairs(kit.vocabulary, scoped) && Reports(p, pair);
    PairSource(ContradictionPair(kit.vocabulary), scoped, pair);
    var a, b :| pair in ContradictionPair(kit.vocabulary)(a, b);
    ContradictionIds(kit.vocabulary, pair, a, b);
  }

  lemma OrderedOnce(all: seq<Proposal>)
    requires NoDup(all)
    ensures NoDup(Ordered(all))
  {
    var kept := Filter(Survives(Quarantined(all)), all);
    FilterNoDup(Survives(Quarantined(all)), all);
    SortPermutes(Outranks, kept);
    NoDupPermuted(kept, Sort(Outranks, kept));
  }

  // With distinct ids a plan makes each proposal once.
  lemma ProposedOnce(kit: Toolkit, cfg: Settings, ms: seq<Record>, ns: Option<Namespace>, thread: Option<string>, now: string)
    requires NoDup(Ids(ms)) && NormalizeThread(thread).Ok?
    ensures NoDup(PlanFor(kit, cfg, ms, ns, thread, now).proposals)
  {
    var requested := NormalizeThread(thread).value;
    var inScope := InCuratedScope(ns, requested);
    KeepsDistinct(IdOf, inScope, ms);
    EmittedOnce(kit, cfg, now, Filter(inScope, ms), ScopeKey(ns, requested));
    var ordered := Ordered(Emitted(kit, cfg, now, Filter(inScope, ms), ScopeKey(ns, requested)));
    OrderedOnce(Emitted(kit, cfg, now, Filter(inScope, ms), ScopeKey(ns, requested)));
    PrefixOnce(ordered, PlanFor(kit, cfg, ms, ns, thread, now).proposals);
  }

  lemma PrefixOnce<T>(s: seq<T>, prefix: seq<T>)
    requires NoDup(s) && prefix <= s
    ensures NoDup(prefix)
  {
    assert forall i :: 0 <= i < |prefix| ==> prefix[i] == s[i];
  }
}
