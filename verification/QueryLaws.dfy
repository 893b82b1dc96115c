/** What a query answers, row by row: which stored memories it shows, which it hides, and in which order. */
module QueryLaws {
  import opened Seqs
  import opened Text
  import opened ThreadScope
  import opened Models
  import opened Policy
  import opened StoreModel
  import opened StoreLaws
  import opened Positions

  // ----- The conditions -----

  // The thread a request names, once it is normal, and the rows each mode shows of it.
  predicate ShowsThread(stored: Option<string>, requested: Option<string>, mode: Option<string>) {
    if IsMode(mode, "null_only") then stored == None
    else if IsMode(mode, "exact") then stored == requested
    else stored == None || stored == requested
  }

  predicate GoodMode(requested: Option<string>, mode: Option<string>) {
    NoMode(mode) || IsMode(mode, "null_only") || IsMode(mode, "inherit") || (IsMode(mode, "exact") && requested != None)
  }

  // A memory without an expiry never expires; one with an expiry does so once it is not later than now.
  predicate Alive(r: Record, now: string) {
    r.expiresAt == None || r.expiresAt == Some("") || (AtMost(now, r.expiresAt.value) && now != r.expiresAt.value)
  }

  // The needle stands in the lower-cased text.
  ghost predicate Holds(text: string, needle: string) {
    exists i :: 0 <= i <= |text| && Lower(needle) <= Lower(text)[i..]
  }

  // The text asked for stands, whatever its case, in the title, the body or a tag; tags are lower-case.
  ghost predicate Speaks(r: Record, text: string) {
    Holds(r.title, text) || Holds(r.body, text)
    || exists k :: 0 <= k < |r.tags| && exists i :: 0 <= i <= |r.tags[k]| && Lower(text) <= r.tags[k][i..]
  }

  ghost predicate Wanted(q: Request, requested: Option<string>, now: string, r: Record) {
    && r.namespace == q.namespace
    && ShowsThread(r.thread, requested, q.mode)
    && (q.statuses.Some? ==> r.status in q.statuses.value)
    && (!q.includeExpired ==> Alive(r, now))
    && (q.bySubstring && q.text != "" ==> Speaks(r, q.text))
  }

  // The clock, unless the request brings a time.
  function NowOf(q: Request, clock: string): string {
    if q.now != "" then q.now else clock
  }

  // ----- The answer -----

  lemma HoldsIsContains(text: string, needle: string)
    ensures Holds(text, needle) <==> Contains(Lower(text), Lower(needle))
  {
    ContainsIff(Lower(text), Lower(needle));
  }

  lemma SpeaksIsMatch(r: Record, text: string)
    ensures Speaks(r, text) <==> MatchesText(r, Lower(text))
  {
    HoldsIsContains(r.title, text);
    HoldsIsContains(r.body, text);
    forall t ensures Contains(t, Lower(text)) <==> exists i :: 0 <= i <= |t| && Lower(text) <= t[i..] {
      ContainsIff(t, Lower(text));
    }
    if k :| 0 <= k < |r.tags| && exists i :: 0 <= i <= |r.tags[k]| && Lower(text) <= r.tags[k][i..] {
      assert r.tags[k] in r.tags && Contains(r.tags[k], Lower(text));
    }
    if t :| t in r.tags && Contains(t, Lower(text)) {
      var k :| 0 <= k < |r.tags| && r.tags[k] == t;
    }
  }

  lemma ShownExactly(r: Record, q: Request)
    requires NormalThread(r.thread) && NormalizeThread(q.thread).Ok? && GoodMode(NormalizeThread(q.thread).value, q.mode)
    ensures AdmitsThread(r.thread, q.thread, q.mode) == Ok(ShowsThread(r.thread, NormalizeThread(q.thread).value, q.mode))
  {
    NormalizeThreadIdempotent(q.thread);
    NormalizedRequest(r.thread, q.thread, q.mode);
    AdmittedExactly(r.thread, NormalizeThread(q.thread).value, q.mode);
  }

  lemma WantedIsAnswer(q: Request, clock: string, r: Record)
    requires NormalThread(r.thread) && NormalizeThread(q.thread).Ok? && GoodMode(NormalizeThread(q.thread).value, q.mode)
    ensures Answers(q, clock)(r) <==> Wanted(q, NormalizeThread(q.thread).value, NowOf(q, clock), r)
  {
    var now := NowOf(q, clock);
    ShownExactly(r, q);
    SpeaksIsMatch(r, q.text);
    assert StatusAllows(q, r) <==> (q.statuses.Some? ==> r.status in q.statuses.value);
    assert ExpiryAllows(q, clock, r) <==> (!q.includeExpired ==> Alive(r, now));
    assert Mentions(q)(r) <==> (q.bySubstring && q.text != "" ==> Speaks(r, q.text));
  }

  lemma GoodModeIsAccepted(q: Request)
    requires NormalizeThread(q.thread).Ok?
    ensures GoodMode(NormalizeThread(q.thread).value, q.mode) <==> ResolveMode(q.thread, q.mode).Ok?
  {
    NormalizeThreadIdempotent(q.thread);
    ResolvedModes(NormalizeThread(q.thread).value, q.mode);
    SameMode(NormalizeThread(q.thread).value, q.thread, q.mode);
  }

  // A query whose thread is no wildcard and whose mode is known is answered, with every stored memory that is
  // wanted and no other, in the order in which they are stored.
  lemma QueryAnswersExactly(cfg: Config, s: State, q: Request, clock: string, at: string) returns (found: seq<nat>)
    requires Inv(s) && NormalizeThread(q.thread).Ok? && GoodMode(NormalizeThread(q.thread).value, q.mode)
    ensures var reply := DoQuery(cfg, s, q, clock, at).reply;
            && reply.Matches? && Picks(s.rows, found, reply.rows)
            && forall i: nat :: i < |s.rows| ==>
                 (Picked(found, i) <==> Wanted(q, NormalizeThread(q.thread).value, NowOf(q, clock), s.rows[i]))
  {
    GoodModeIsAccepted(q);
    QueryIsScan(cfg, s, q, clock, at);
    found := FilterPicks(Answers(q, clock), s.rows);
    forall i: nat | i < |s.rows|
      ensures Answers(q, clock)(s.rows[i]) <==> Wanted(q, NormalizeThread(q.thread).value, NowOf(q, clock), s.rows[i])
    {
      assert s.rows[i] in s.rows && WellFormed(s.rows[i]);
      WantedIsAnswer(q, clock, s.rows[i]);
    }
  }

  // It is refused exactly for a wildcard thread, or for an unknown mode, or exact without a thread, where the
  // namespace holds a memory at all.
  lemma RefusedExactly(cfg: Config, s: State, q: Request, clock: string, at: string)
    requires Inv(s)
    ensures DoQuery(cfg, s, q, clock, at).reply == BadThread <==>
            || NormalizeThread(q.thread).Refused?
            || (!GoodMode(NormalizeThread(q.thread).value, q.mode) && exists r :: r in s.rows && r.namespace == q.namespace)
  {
    QueryIsScan(cfg, s, q, clock, at);
    if NormalizeThread(q.thread).Ok? {
      GoodModeIsAccepted(q);
    }
  }

  // By default a request shows the memories of its own thread and those of the project.
  lemma OwnThreadIsShown(cfg: Config, s: State, q: Request, clock: string, at: string, r: Record)
    requires Inv(s) && NormalThread(q.thread) && NoMode(q.mode) && q.text == "" && r in s.rows
    requires r.namespace == q.namespace && (r.thread == None || r.thread == q.thread)
    requires (q.statuses.Some? ==> r.status in q.statuses.value) && (!q.includeExpired ==> Alive(r, NowOf(q, clock)))
    ensures DoQuery(cfg, s, q, clock, at).reply.Matches? && r in DoQuery(cfg, s, q, clock, at).reply.rows
  {
    var found := QueryAnswersExactly(cfg, s, q, clock, at);
    var i :| 0 <= i < |s.rows| && s.rows[i] == r;
    assert Picked(found, i);
    var j :| 0 <= j < |found| && found[j] == i;
    assert DoQuery(cfg, s, q, clock, at).reply.rows[j] == r;
  }

  // ----- What queries leave in the log -----

  // An answered query logs one recall and changes nothing else: its text, or the placeholder for a secret, its
  // thread, and how many memories are wanted whatever they say.
  lemma RecallIsLogged(cfg: Config, s: State, q: Request, clock: string, at: string) returns (seen: seq<nat>)
    requires Inv(s) && NormalizeThread(q.thread).Ok? && GoodMode(NormalizeThread(q.thread).value, q.mode)
    ensures Rising(seen, |s.rows|)
    ensures forall i: nat :: i < |s.rows| ==>
              (Picked(seen, i) <==> Wanted(q.(text := ""), NormalizeThread(q.thread).value, NowOf(q, clock), s.rows[i]))
    ensures var step := DoQuery(cfg, s, q, clock, at);
            var e := Event(q.namespace, at, Recalled(if cfg.secret(q.text) then "[REDACTED_SECRET]" else q.text,
                                                     |seen|, NormalizeThread(q.thread).value));
            step.state == s.(events := s.events + [e]) && step.actions == [Emit(e)]
  {
    GoodModeIsAccepted(q);
    QueryIsScan(cfg, s, q, clock, at);
    seen := FilterPicks(InScope(q, clock), s.rows);
    forall i: nat | i < |s.rows|
      ensures InScope(q, clock)(s.rows[i]) <==> Wanted(q.(text := ""), NormalizeThread(q.thread).value, NowOf(q, clock), s.rows[i])
    {
      assert s.rows[i] in s.rows && WellFormed(s.rows[i]);
      WantedIsAnswer(q.(text := ""), clock, s.rows[i]);
      WithoutText(q, clock, s.rows[i]);
    }
  }

  lemma WithoutText(q: Request, clock: string, r: Record)
    ensures Answers(q.(text := ""), clock)(r) <==> InScope(q, clock)(r)
  {
    var p := q.(text := "");
    assert Mentions(p)(r);
    assert StatusAllows(p, r) == StatusAllows(q, r) && ExpiryAllows(p, clock, r) == ExpiryAllows(q, clock, r);
  }

  // No recall event of a run quotes a query text that matches a secret pattern: the placeholder stands for it.
  lemma {:induction false} RecallsHideSecrets(cfg: Config, ops: seq<Op>, e: Event)
    requires Lawful(cfg) && Legal(ops) && e in Run(cfg, EMPTY, ops).events && e.detail.Recalled?
    ensures e.detail.query == "[REDACTED_SECRET]" || !cfg.secret(e.detail.query)
  {
    if ops != [] {
      var init, op := ops[..|ops| - 1], ops[|ops| - 1];
      RunKeepsInv(cfg, init);
      if e in Run(cfg, EMPTY, init).events {
        RecallsHideSecrets(cfg, init, e);
      } else {
        NewRecall(cfg, Run(cfg, EMPTY, init), op, e);
      }
    }
  }

  lemma NewRecall(cfg: Config, s: State, op: Op, e: Event)
    requires Inv(s) && e in Do(cfg, s, op).state.events && e !in s.events && e.detail.Recalled?
    ensures op.Query? && e.namespace == op.request.namespace && e.at == op.at
    ensures e.detail.query == if cfg.secret(op.request.text) then "[REDACTED_SECRET]" else op.request.text
  {
    if op.Query? {
      QueryIsScan(cfg, s, op.request, op.clock, op.at);
    }
  }
}
