/** What a curator plan guarantees: order independence, scope, suppression and ranked truncation. */
module CuratorLaws {
  import opened Seqs
  import opened Sorting
  import opened Text
  import opened ThreadScope
  import opened Models
  import opened StoreModel
  import opened Ranking
  import opened PairDetection
  import Detection = PairDetection
  import opened Accumulate
  import opened Curator

  // ----- The directory -----

  lemma {:induction false} DirectoryHolds(scoped: seq<Record>)
    requires NoDup(Ids(scoped))
    ensures forall m :: m in scoped && m.id != "" ==> m.id in Directory(scoped) && Directory(scoped)[m.id] == m
    ensures forall id :: id in Directory(scoped) ==>
                           id != "" && Directory(scoped)[id] in scoped && Directory(scoped)[id].id == id
  {
    if scoped != [] {
      var init, last := scoped[..|scoped| - 1], scoped[|scoped| - 1];
      assert Ids(scoped)[..|init|] == Ids(init);
      NoDupPrefix(Ids(scoped));
      DirectoryHolds(init);
      forall m | m in init ensures m.id != last.id {
        IdMembers(init, m);
      }
    }
  }

  lemma DirectoryPermuted(a: seq<Record>, b: seq<Record>)
    requires Permuted(a, b) && NoDup(Ids(a))
    ensures Directory(a) == Directory(b)
  {
    MapPermuted(IdOf, a, b);
    NoDupPermuted(Ids(a), Ids(b));
    PermutedMembers(a, b);
    forall id ensures (id in Directory(a) ==> id in Directory(b) && Directory(a)[id] == Directory(b)[id])
                      && (id in Directory(b) ==> id in Directory(a))
    {
      DirectoryWithin(a, b, id);
      DirectoryWithin(b, a, id);
    }
  }

  lemma DirectoryWithin(a: seq<Record>, b: seq<Record>, id: string)
    requires NoDup(Ids(a)) && NoDup(Ids(b)) && forall m :: m in a ==> m in b
    ensures id in Directory(a) ==> id in Directory(b) && Directory(a)[id] == Directory(b)[id]
  {
    DirectoryHolds(a);
    DirectoryHolds(b);
    if id in Directory(a) {
      var m := Directory(a)[id];
      assert m in b && m.id == id;
    }
  }

  // ----- What is emitted -----

  lemma EmittedPermuted(kit: Toolkit, cfg: Settings, now: string, a: seq<Record>, b: seq<Record>, key: string)
    requires Permuted(a, b) && NoDup(Ids(a))
    ensures Permuted(Emitted(kit, cfg, now, a, key), Emitted(kit, cfg, now, b, key))
  {
    DirectoryPermuted(a, b);
    var byId := Directory(a);
    FlatMapPermuted(AboutMemory(kit, cfg, now, byId, key), a, b);
    Detection.PairsPermuted(kit.vocabulary, a, b);
    MapPermuted(AboutPair(kit, byId, key), DuplicatePairs(kit.vocabulary, a), DuplicatePairs(kit.vocabulary, b));
    MapPermuted(AboutPair(kit, byId, key), ContradictionPairs(kit.vocabulary, a), ContradictionPairs(kit.vocabulary, b));
  }

  // A proposal about one memory, by one of the rules.
  ghost predicate FromRule(kit: Toolkit, cfg: Settings, now: string, scoped: seq<Record>, key: string,
                           p: Proposal, m: Record)
  {
    && m in scoped && m.id != "" && p.ids == [m.id] && p.action in MEMORY_ACTIONS
    && RuleFor(kit, cfg, now, p.action, m) == Some(p.reason)
    && p == Make(kit, Directory(scoped), key, p.action, p.ids, p.reason)
  }

  // A proposal about two memories, from a detected pair.
  ghost predicate FromPair(kit: Toolkit, scoped: seq<Record>, key: string, p: Proposal, pair: Pair, a: Record, b: Record) {
    && a in scoped && b in scoped && a.id != "" && b.id != ""
    && (pair in DuplicatePair(kit.vocabulary)(a, b) || pair in ContradictionPair(kit.vocabulary)(a, b))
    && p == AboutPair(kit, Directory(scoped), key)(pair)
  }

  lemma RuleOrigin(kit: Toolkit, cfg: Settings, now: string, scoped: seq<Record>, key: string, p: Proposal)
    ensures p in FlatMap(AboutMemory(kit, cfg, now, Directory(scoped), key), scoped) <==>
              exists m :: FromRule(kit, cfg, now, scoped, key, p, m)
  {
    var byId := Directory(scoped);
    FlatMapMembers(AboutMemory(kit, cfg, now, byId, key), scoped, p);
    forall m | m in scoped && m.id != ""
      ensures p in AboutMemory(kit, cfg, now, byId, key)(m) <==> FromRule(kit, cfg, now, scoped, key, p, m)
    {
      FlatMapMembers(Proposed(kit, cfg, now, byId, key, m), MEMORY_ACTIONS, p);
      RuleMembers(kit, cfg, now, byId, key, m, p);
    }
  }

  lemma RuleMembers(kit: Toolkit, cfg: Settings, now: string, byId: map<string, Record>, key: string, m: Record, p: Proposal)
    ensures forall action :: p in Proposed(kit, cfg, now, byId, key, m)(action) <==>
              && p.action == action && p.ids == [m.id]
              && RuleFor(kit, cfg, now, action, m) == Some(p.reason)
              && p == Make(kit, byId, key, action, p.ids, p.reason)
  {
  }

  // Every emitted proposal comes from a rule about one memory, or from a pair.
  lemma EmittedOrigin(kit: Toolkit, cfg: Settings, now: string, scoped: seq<Record>, key: string, p: Proposal)
    requires p in Emitted(kit, cfg, now, scoped, key)
    ensures (exists m :: FromRule(kit, cfg, now, scoped, key, p, m)) ||
            (exists pair, a, b :: FromPair(kit, scoped, key, p, pair, a, b))
  {
    var v, about := kit.vocabulary, AboutPair(kit, Directory(scoped), key);
    RuleOrigin(kit, cfg, now, scoped, key, p);
    if p in Map(about, DuplicatePairs(v, scoped)) {
      MapMembers(about, DuplicatePairs(v, scoped), p);
      var pair :| pair in DuplicatePairs(v, scoped) && p == about(pair);
      PairSource(DuplicatePair(v), scoped, pair);
      var a, b :| a in scoped && b in scoped && HasId(a) && HasId(b) && pair in DuplicatePair(v)(a, b);
      assert FromPair(kit, scoped, key, p, pair, a, b);
    } else if p in Map(about, ContradictionPairs(v, scoped)) {
      MapMembers(about, ContradictionPairs(v, scoped), p);
      var pair :| pair in ContradictionPairs(v, scoped) && p == about(pair);
      PairSource(ContradictionPair(v), scoped, pair);
      var a, b :| a in scoped && b in scoped && HasId(a) && HasId(b) && pair in ContradictionPair(v)(a, b);
      assert FromPair(kit, scoped, key, p, pair, a, b);
    }
  }

  lemma DuplicateIds(v: Vocabulary, pair: Pair, a: Record, b: Record)
    requires pair in DuplicatePair(v)(a, b)
    ensures pair.Duplicate? && pair.left == LowId(a, b) && pair.right == HighId(a, b) && DuplicatePair(v)(a, b) == [pair]
  {
  }

  lemma ContradictionIds(v: Vocabulary, pair: Pair, a: Record, b: Record)
    requires pair in ContradictionPair(v)(a, b)
    ensures pair.Contradiction? && pair.left == LowId(a, b) && pair.right == HighId(a, b)
    ensures ContradictionPair(v)(a, b) == [pair]
  {
  }

  lemma PairIds(v: Vocabulary, pair: Pair, a: Record, b: Record)
    requires pair in DuplicatePair(v)(a, b) || pair in ContradictionPair(v)(a, b)
    ensures pair.left == LowId(a, b) && pair.right == HighId(a, b)
    ensures pair.Duplicate? ==> DuplicatePair(v)(a, b) == [pair]
    ensures pair.Contradiction? ==> ContradictionPair(v)(a, b) == [pair]
  {
    if pair in DuplicatePair(v)(a, b) {
      DuplicateIds(v, pair, a, b);
    } else {
      ContradictionIds(v, pair, a, b);
    }
  }

  // Two pairs of the same kind with the same ids are the same pair.
  lemma PairDetermined(v: Vocabulary, scoped: seq<Record>, p: Pair, a: Record, b: Record, q: Pair, c: Record, d: Record)
    requires NoDup(Ids(scoped)) && a in scoped && b in scoped && c in scoped && d in scoped
    requires p in DuplicatePair(v)(a, b) || p in ContradictionPair(v)(a, b)
    requires q in DuplicatePair(v)(c, d) || q in ContradictionPair(v)(c, d)
    requires p.left == q.left && p.right == q.right && (p.Duplicate? <==> q.Duplicate?)
    ensures p == q
  {
    PairIds(v, p, a, b);
    PairIds(v, q, c, d);
    DetectionSymmetric(v);
    if a.id == c.id {
      UniqueId(scoped, a, c);
      UniqueId(scoped, b, d);
    } else {
      UniqueId(scoped, a, d);
      UniqueId(scoped, b, c);
    }
  }

  lemma SamePair(kit: Toolkit, byId: map<string, Record>, key: string, p: Pair, q: Pair)
    requires AboutPair(kit, byId, key)(p).action == AboutPair(kit, byId, key)(q).action
    requires AboutPair(kit, byId, key)(p).ids == AboutPair(kit, byId, key)(q).ids
    ensures p.left == q.left && p.right == q.right && (p.Duplicate? <==> q.Duplicate?)
  {
    assert [p.left, p.right][0] == [q.left, q.right][0] && [p.left, p.right][1] == [q.left, q.right][1];
  }

  // Action and ids determine a proposal.
  lemma ProposalDetermined(kit: Toolkit, cfg: Settings, now: string, scoped: seq<Record>, key: string, p: Proposal, q: Proposal)
    requires NoDup(Ids(scoped))
    requires p in Emitted(kit, cfg, now, scoped, key) && q in Emitted(kit, cfg, now, scoped, key)
    requires p.action == q.action && p.ids == q.ids
    ensures p == q
  {
    EmittedOrigin(kit, cfg, now, scoped, key, p);
    EmittedOrigin(kit, cfg, now, scoped, key, q);
    if m :| FromRule(kit, cfg, now, scoped, key, p, m) {
      var m' :| FromRule(kit, cfg, now, scoped, key, q, m');
      assert p.ids[0] == q.ids[0];
      UniqueId(scoped, m, m');
    } else {
      var pair, a, b :| FromPair(kit, scoped, key, p, pair, a, b);
      var pair', c, d :| FromPair(kit, scoped, key, q, pair', c, d);
      SamePair(kit, Directory(scoped), key, pair, pair');
      PairDetermined(kit.vocabulary, scoped, pair, a, b, pair', c, d);
    }
  }

  // ----- Order -----

  lemma OutranksIsPreorder()
    ensures Preorder(Outranks)
  {
    OrderLaws();
  }

  lemma NamesDistinct(a: Curator.Action, b: Curator.Action)
    requires a.Name() == b.Name()
    ensures a == b
  {
    assert a.Name()[0] == b.Name()[0] && |a.Name()| == |b.Name()|;
  }

  // The ids of a proposal are already in order.
  lemma IdsInOrder(kit: Toolkit, cfg: Settings, now: string, scoped: seq<Record>, key: string, p: Proposal)
    requires p in Emitted(kit, cfg, now, scoped, key)
    ensures Sort(AtMost, p.ids) == p.ids
  {
    EmittedOrigin(kit, cfg, now, scoped, key, p);
    if m :| FromRule(kit, cfg, now, scoped, key, p, m) {
      assert [m.id][1..] == [];
    } else {
      var pair, a, b :| FromPair(kit, scoped, key, p, pair, a, b);
      PairIds(kit.vocabulary, pair, a, b);
      AtMostTotal(a.id, b.id);
      InOrder(pair.left, pair.right);
    }
  }

  lemma InOrder(low: string, high: string)
    requires AtMost(low, high)
    ensures Sort(AtMost, [low, high]) == [low, high]
  {
    assert [low, high][1..] == [high] && [high][1..] == [];
    assert Sort(AtMost, [high]) == [high];
  }

  // Among these proposals the hash tells the ids of one action apart.
  ghost predicate NoCollision(proposals: seq<Proposal>) {
    forall p, q :: p in proposals && q in proposals && p.action == q.action && p.id == q.id ==> p.ids == q.ids
  }

  // No two emitted proposals tie.
  lemma EmittedDecided(kit: Toolkit, cfg: Settings, now: string, scoped: seq<Record>, key: string)
    requires NoDup(Ids(scoped)) && NoCollision(Emitted(kit, cfg, now, scoped, key))
    ensures Decided(Outranks, Emitted(kit, cfg, now, scoped, key))
  {
    var all := Emitted(kit, cfg, now, scoped, key);
    forall p, q | p in all && q in all && Outranks(p, q) && Outranks(q, p) ensures p == q {
      TiesAreEqual(kit, cfg, now, scoped, key, p, q);
    }
  }

  lemma EmittedId(kit: Toolkit, cfg: Settings, now: string, scoped: seq<Record>, key: string, p: Proposal)
    requires p in Emitted(kit, cfg, now, scoped, key)
    ensures p.id == kit.proposalId(p.action.Name(), p.ids, key)
  {
    EmittedOrigin(kit, cfg, now, scoped, key, p);
    IdsInOrder(kit, cfg, now, scoped, key, p);
  }

  // A hash that is injective within the scope never collides.
  ghost predicate Injective(kit: Toolkit, key: string) {
    forall a, ids, a', ids' :: kit.proposalId(a, ids, key) == kit.proposalId(a', ids', key) ==> a == a' && ids == ids'
  }

  lemma InjectiveNeverCollides(kit: Toolkit, cfg: Settings, now: string, scoped: seq<Record>, key: string)
    requires Injective(kit, key)
    ensures NoCollision(Emitted(kit, cfg, now, scoped, key))
  {
    var all := Emitted(kit, cfg, now, scoped, key);
    forall p, q | p in all && q in all && p.action == q.action && p.id == q.id ensures p.ids == q.ids {
      EmittedId(kit, cfg, now, scoped, key, p);
      EmittedId(kit, cfg, now, scoped, key, q);
    }
  }

  lemma TiesAreEqual(kit: Toolkit, cfg: Settings, now: string, scoped: seq<Record>, key: string, p: Proposal, q: Proposal)
    requires NoDup(Ids(scoped)) && NoCollision(Emitted(kit, cfg, now, scoped, key))
    requires p in Emitted(kit, cfg, now, scoped, key) && q in Emitted(kit, cfg, now, scoped, key)
    requires Outranks(p, q) && Outranks(q, p)
    ensures p == q
  {
    OrderLaws();
    NamesDistinct(p.action, q.action);
    ProposalDetermined(kit, cfg, now, scoped, key, p, q);
  }

  lemma SurvivorsPermuted(a: seq<Proposal>, b: seq<Proposal>)
    requires Permuted(a, b) && Decided(Outranks, a)
    ensures Ordered(a) == Ordered(b)
  {
    PermutedMembers(a, b);
    assert Quarantined(a) == Quarantined(b);
    var survives := Survives(Quarantined(a));
    PermutedFilter(survives, a, b);
    OutranksIsPreorder();
    SortPermuted(Outranks, Filter(survives, a), Filter(survives, b));
  }

  // What a scope's memories propose, before suppression and truncation.
  function EmittedIn(kit: Toolkit, cfg: Settings, memories: seq<Record>, ns: Option<Namespace>, requested: Option<string>,
                     now: string): seq<Proposal>
  {
    Emitted(kit, cfg, now, Filter(InCuratedScope(ns, requested), memories), ScopeKey(ns, requested))
  }

  // The plan is a function of the set of memories: their order changes nothing, unless two proposals of one
  // action collide in their hash.
  lemma PlanPermuted(kit: Toolkit, cfg: Settings, a: seq<Record>, b: seq<Record>, ns: Option<Namespace>,
                     thread: Option<string>, now: string)
    requires Permuted(a, b) && NoDup(Ids(a))
    requires NormalizeThread(thread).Ok? ==> NoCollision(EmittedIn(kit, cfg, a, ns, NormalizeThread(thread).value, now))
    ensures PlanFor(kit, cfg, a, ns, thread, now) == PlanFor(kit, cfg, b, ns, thread, now)
  {
    if NormalizeThread(thread).Ok? {
      var requested := NormalizeThread(thread).value;
      var inScope, key := InCuratedScope(ns, requested), ScopeKey(ns, requested);
      var sa, sb := Filter(inScope, a), Filter(inScope, b);
      PermutedFilter(inScope, a, b);
      PermutedMembers(sa, sb);
      KeepsDistinct(IdOf, inScope, a);
      EmittedPermuted(kit, cfg, now, sa, sb, key);
      EmittedDecided(kit, cfg, now, sa, key);
      SurvivorsPermuted(Emitted(kit, cfg, now, sa, key), Emitted(kit, cfg, now, sb, key));
    }
  }

  // ----- Scope, suppression and truncation -----

  lemma PlannedAreEmitted(kit: Toolkit, cfg: Settings, memories: seq<Record>, ns: Option<Namespace>,
                          thread: Option<string>, now: string, p: Proposal)
    requires var plan := PlanFor(kit, cfg, memories, ns, thread, now);
             plan.Plan? && p in plan.proposals
    ensures NormalizeThread(thread).Ok?
    ensures var requested := NormalizeThread(thread).value;
            var all := Emitted(kit, cfg, now, Filter(InCuratedScope(ns, requested), memories), ScopeKey(ns, requested));
            p in all && Survives(Quarantined(all))(p)
  {
    var requested := NormalizeThread(thread).value;
    var all := Emitted(kit, cfg, now, Filter(InCuratedScope(ns, requested), memories), ScopeKey(ns, requested));
    SortMembers(Outranks, Filter(Survives(Quarantined(all)), all));
  }

  lemma NamesScoped(kit: Toolkit, cfg: Settings, now: string, scoped: seq<Record>, key: string, p: Proposal, id: string)
    requires p in Emitted(kit, cfg, now, scoped, key) && id in p.ids
    ensures exists m :: m in scoped && m.id == id
  {
    EmittedOrigin(kit, cfg, now, scoped, key, p);
    if m :| FromRule(kit, cfg, now, scoped, key, p, m) {
      assert m in scoped && m.id == id;
    } else {
      var pair, a, b :| FromPair(kit, scoped, key, p, pair, a, b);
      PairIds(kit.vocabulary, pair, a, b);
      assert a in scoped && b in scoped && (id == a.id || id == b.id);
    }
  }

  // Every proposal names only memories of the asked namespace and of a visible thread.
  lemma ProposalsInScope(kit: Toolkit, cfg: Settings, memories: seq<Record>, ns: Option<Namespace>,
                         thread: Option<string>, now: string, p: Proposal, id: string)
    requires var plan := PlanFor(kit, cfg, memories, ns, thread, now);
             plan.Plan? && p in plan.proposals && id in p.ids
    ensures exists m :: m in memories && m.id == id
                        && (ns.Some? ==> m.namespace == ns.value)
                        && AdmitsThread(m.thread, NormalizeThread(thread).value, None) == Ok(true)
  {
    PlannedAreEmitted(kit, cfg, memories, ns, thread, now, p);
    var requested := NormalizeThread(thread).value;
    NamesScoped(kit, cfg, now, Filter(InCuratedScope(ns, requested), memories), ScopeKey(ns, requested), p, id);
  }

  lemma SecretsAreQuarantined(kit: Toolkit, cfg: Settings, now: string, scoped: seq<Record>, key: string, m: Record)
    requires m in scoped && m.id != "" && SecretIn(kit, m).Some?
    ensures m.id in Quarantined(Emitted(kit, cfg, now, scoped, key))
  {
    var p := Make(kit, Directory(scoped), key, QuarantineSuspectedSecret, [m.id], SecretKind(SecretIn(kit, m).value));
    assert MEMORY_ACTIONS[0] == QuarantineSuspectedSecret;
    assert FromRule(kit, cfg, now, scoped, key, p, m);
    RuleOrigin(kit, cfg, now, scoped, key, p);
    assert p in Emitted(kit, cfg, now, scoped, key) && p.ids[0] == m.id;
  }

  // No surviving proposal other than a quarantine mentions a memory that is flagged as a secret.
  lemma SecretsSuppressOthers(kit: Toolkit, cfg: Settings, memories: seq<Record>, ns: Option<Namespace>,
                              thread: Option<string>, now: string, p: Proposal, m: Record)
    requires var plan := PlanFor(kit, cfg, memories, ns, thread, now);
             plan.Plan? && p in plan.proposals && !p.action.QuarantineSuspectedSecret?
    requires NormalizeThread(thread).Ok? && m in memories && m.id != ""
    requires InCuratedScope(ns, NormalizeThread(thread).value)(m) && SecretIn(kit, m).Some?
    ensures m.id !in p.ids
  {
    PlannedAreEmitted(kit, cfg, memories, ns, thread, now, p);
    var requested := NormalizeThread(thread).value;
    SecretsAreQuarantined(kit, cfg, now, Filter(InCuratedScope(ns, requested), memories), ScopeKey(ns, requested), m);
  }

  // Truncation keeps a prefix in which nothing dropped outranks anything kept.
  lemma TruncationKeepsTheBest(kit: Toolkit, cfg: Settings, memories: seq<Record>, ns: Option<Namespace>,
                               thread: Option<string>, now: string)
    requires NormalizeThread(thread).Ok?
    ensures var requested := NormalizeThread(thread).value;
            var all := Emitted(kit, cfg, now, Filter(InCuratedScope(ns, requested), memories), ScopeKey(ns, requested));
            var plan, ordered := PlanFor(kit, cfg, memories, ns, thread, now), Ordered(all);
            && plan.proposals <= ordered
            && (cfg.maxProposals >= 0 ==> (plan.truncated <==> |plan.proposals| < |ordered|))
            && forall i, j :: 0 <= i < |plan.proposals| <= j < |ordered| ==> Outranks(plan.proposals[i], ordered[j])
  {
    var requested := NormalizeThread(thread).value;
    var all := Emitted(kit, cfg, now, Filter(InCuratedScope(ns, requested), memories), ScopeKey(ns, requested));
    OutranksIsPreorder();
    SortSorts(Outranks, Filter(Survives(Quarantined(all)), all));
  }

  // Suspected secrets stand before everything else in a plan, so truncation drops them last.
  lemma QuarantinesComeFirst(kit: Toolkit, cfg: Settings, memories: seq<Record>, ns: Option<Namespace>,
                             thread: Option<string>, now: string, i: nat, j: nat)
    requires NormalizeThread(thread).Ok?
    requires i < j < |PlanFor(kit, cfg, memories, ns, thread, now).proposals|
    requires PlanFor(kit, cfg, memories, ns, thread, now).proposals[j].action.QuarantineSuspectedSecret?
    ensures PlanFor(kit, cfg, memories, ns, thread, now).proposals[i].action.QuarantineSuspectedSecret?
  {
    var requested := NormalizeThread(thread).value;
    var all := Emitted(kit, cfg, now, Filter(InCuratedScope(ns, requested), memories), ScopeKey(ns, requested));
    OutranksIsPreorder();
    SortSorts(Outranks, Filter(Survives(Quarantined(all)), all));
    var ordered := Ordered(all);
    assert Outranks(ordered[i], ordered[j]);
  }
}
