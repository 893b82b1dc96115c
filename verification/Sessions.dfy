/** Whole sessions of a store, imports among the calls: each is a legal run, so all that holds of runs holds of them. */
module Sessions {
  import opened Seqs
  import opened Policy
  import opened Serialize
  import opened StoreModel
  import opened StoreLaws
  import opened Exchange
  import Journal
  import Table

  datatype Call = Single(op: Op) | Importing(records: seq<Wire>, tokens: seq<Token>)

  // An import draws one token for each record.
  predicate Shaped(c: Call) {
    c.Importing? ==> |c.records| == |c.tokens|
  }

  predicate AllShaped(calls: seq<Call>) {
    forall i :: 0 <= i < |calls| ==> Shaped(calls[i])
  }

  function OpsOf(c: Call): seq<Op>
    requires Shaped(c)
  {
    match c
    case Single(op) => [op]
    case Importing(records, tokens) => ImportOps(records, tokens)
  }

  // The operations a session comes down to.
  function Flattened(calls: seq<Call>): seq<Op>
    requires AllShaped(calls)
  {
    if calls == [] then [] else Flattened(calls[..|calls| - 1]) + OpsOf(calls[|calls| - 1])
  }

  // The state a session reaches and the hook calls it makes, an import running its own loop.
  datatype Outcome = Outcome(state: State, actions: seq<Action>)

  function Called(cfg: Config, before: Outcome, c: Call): Outcome
    requires Shaped(c)
  {
    match c
    case Single(op) =>
      var step := Do(cfg, before.state, op);
      Outcome(step.state, before.actions + step.actions)
    case Importing(records, tokens) =>
      var t := Import(cfg, before.state, records, tokens);
      Outcome(t.state, before.actions + t.actions)
  }

  function RunSession(cfg: Config, s: State, calls: seq<Call>): Outcome
    requires AllShaped(calls)
  {
    if calls == [] then Outcome(s, [])
    else Called(cfg, RunSession(cfg, s, calls[..|calls| - 1]), calls[|calls| - 1])
  }

  // The tokens of an import are distinct and not drawn before.
  ghost predicate FreshFor(tokens: seq<Token>, used: set<string>) {
    && (forall i :: 0 <= i < |tokens| ==> tokens[i].id != "" && tokens[i].id !in used)
    && forall i, j :: 0 <= i < j < |tokens| ==> tokens[i].id != tokens[j].id
  }

  ghost predicate LegalSession(calls: seq<Call>)
    requires AllShaped(calls)
  {
    calls == [] ||
    var init, c := calls[..|calls| - 1], calls[|calls| - 1];
    && LegalSession(init)
    && match c
       case Single(op) => FreshOp(op, Drawn(Flattened(init)))
       case Importing(_, tokens) => FreshFor(tokens, Drawn(Flattened(init)))
  }

  // ----- Sessions are runs -----

  // One more call on a run is the run of its operations too.
  lemma CallIsRun(cfg: Config, s: State, ops: seq<Op>, c: Call)
    requires Shaped(c)
    ensures Called(cfg, Outcome(Run(cfg, s, ops), Actions(cfg, s, ops)), c) ==
            Outcome(Run(cfg, s, ops + OpsOf(c)), Actions(cfg, s, ops + OpsOf(c)))
  {
    match c
    case Single(op) =>
      assert (ops + [op])[..|ops|] == ops;
    case Importing(records, tokens) =>
      ImportIsRun(cfg, Run(cfg, s, ops), records, tokens);
      RunSplit(cfg, s, ops, ImportOps(records, tokens));
  }

  lemma {:induction false} SessionIsRun(cfg: Config, s: State, calls: seq<Call>)
    requires AllShaped(calls)
    ensures RunSession(cfg, s, calls) == Outcome(Run(cfg, s, Flattened(calls)), Actions(cfg, s, Flattened(calls)))
  {
    if calls != [] {
      SessionIsRun(cfg, s, calls[..|calls| - 1]);
      CallIsRun(cfg, s, Flattened(calls[..|calls| - 1]), calls[|calls| - 1]);
    }
  }

  lemma DrawnAppend(a: seq<Op>, b: seq<Op>)
    ensures Drawn(a + b) == Drawn(a) + Drawn(b)
  {
    assert forall op :: op in a + b <==> op in a || op in b;
  }

  lemma {:induction false} ImportDraws(records: seq<Wire>, tokens: seq<Token>, id: string)
    requires |records| == |tokens| && id in Drawn(ImportOps(records, tokens))
    ensures exists i :: 0 <= i < |tokens| && tokens[i].id == id
  {
    if records != [] {
      var n := |records| - 1;
      var last := ImportOps(records, tokens)[|ImportOps(records[..n], tokens[..n])|..];
      DrawnAppend(ImportOps(records[..n], tokens[..n]), last);
      if id in Drawn(ImportOps(records[..n], tokens[..n])) {
        ImportDraws(records[..n], tokens[..n], id);
        var i :| 0 <= i < n && tokens[..n][i].id == id;
        assert tokens[i].id == id;
      } else {
        assert tokens[n].id == id;
      }
    }
  }

  // Continuing a legal run by the adds of an import with fresh tokens keeps it legal.
  lemma {:induction false} ImportIsLegal(ops: seq<Op>, records: seq<Wire>, tokens: seq<Token>)
    requires Legal(ops) && |records| == |tokens| && FreshFor(tokens, Drawn(ops))
    ensures Legal(ops + ImportOps(records, tokens))
  {
    if records == [] {
      assert ops + [] == ops;
    } else {
      var n := |records| - 1;
      var before := ImportOps(records[..n], tokens[..n]);
      ImportIsLegal(ops, records[..n], tokens[..n]);
      if MemoryFromDict(records[n]).Some? {
        var op := Add(Cleared(MemoryFromDict(records[n]).value), tokens[n].id, tokens[n].at);
        ClearedIsWellFormed(records[n]);
        TokenUnused(ops, records, tokens);
        LegalOneMore(ops + before, op);
        AssocStep(ops, before, [op]);
      } else {
        assert ImportOps(records, tokens) == before;
      }
    }
  }

  lemma TokenUnused(ops: seq<Op>, records: seq<Wire>, tokens: seq<Token>)
    requires 0 < |records| == |tokens| && FreshFor(tokens, Drawn(ops))
    ensures var n := |records| - 1;
            tokens[n].id !in Drawn(ops + ImportOps(records[..n], tokens[..n]))
  {
    var n := |records| - 1;
    DrawnAppend(ops, ImportOps(records[..n], tokens[..n]));
    if tokens[n].id in Drawn(ImportOps(records[..n], tokens[..n])) {
      ImportDraws(records[..n], tokens[..n], tokens[n].id);
    }
  }

  lemma {:induction false} SessionIsLegal(calls: seq<Call>)
    requires AllShaped(calls) && LegalSession(calls)
    ensures Legal(Flattened(calls))
  {
    if calls != [] {
      var init, c := calls[..|calls| - 1], calls[|calls| - 1];
      SessionIsLegal(init);
      match c
      case Single(op) => LegalOneMore(Flattened(init), op);
      case Importing(records, tokens) => ImportIsLegal(Flattened(init), records, tokens);
    }
  }

  // ----- What follows for sessions -----

  // From an empty directory, after every session, reopening the files rebuilds the live store exactly, and
  // the store satisfies its invariant.
  lemma SessionReopens(cfg: Config, calls: seq<Call>)
    requires Lawful(cfg) && AllShaped(calls) && LegalSession(calls)
    ensures var end := RunSession(cfg, EMPTY, calls);
            && Inv(end.state)
            && Journal.SameStore(Journal.Load(Journal.AppendAll(Journal.NO_FILES, end.actions)), end.state)
  {
    SessionIsLegal(calls);
    SessionIsRun(cfg, EMPTY, calls);
    RunKeepsInv(cfg, Flattened(calls));
    Journal.ReopenRestores(cfg, Flattened(calls));
  }

  // The table rebuilds it up to empty update times, and exactly when every live memory is settled.
  lemma SessionReopensTable(cfg: Config, calls: seq<Call>)
    requires Lawful(cfg) && AllShaped(calls) && LegalSession(calls)
    ensures var end := RunSession(cfg, EMPTY, calls);
            var reopened := Table.Load(Table.ExecuteAll(Table.NO_ROWS, end.actions));
            && reopened.rows == Map(Table.ReadBack, end.state.rows) && reopened.events == end.state.events
            && (Journal.SameStore(reopened, end.state) <==> forall r :: r in end.state.rows ==> Table.Settled(r))
  {
    SessionIsLegal(calls);
    SessionIsRun(cfg, EMPTY, calls);
    Table.ReopenRestores(cfg, Flattened(calls));
  }

  // A memory log cut anywhere within a session, an import included, replays to an earlier live state.
  lemma SessionCut(cfg: Config, calls: seq<Call>, n: nat, f: Journal.Files) returns (k: nat)
    requires Lawful(cfg) && AllShaped(calls) && LegalSession(calls)
    requires n <= |Journal.AppendAll(Journal.NO_FILES, RunSession(cfg, EMPTY, calls).actions).memories|
    requires Journal.HoldsLines(f, Journal.AppendAll(Journal.NO_FILES, RunSession(cfg, EMPTY, calls).actions).memories[..n])
    ensures k <= |Flattened(calls)|
    ensures Journal.SameMemories(Journal.Load(f), Run(cfg, EMPTY, Flattened(calls)[..k]))
  {
    SessionIsLegal(calls);
    SessionIsRun(cfg, EMPTY, calls);
    k := Journal.CutReplaysEarlierState(cfg, Flattened(calls), n, f);
  }

  // The audit log of a session tells which memories live and in what status.
  lemma SessionAudited(cfg: Config, calls: seq<Call>)
    requires Lawful(cfg) && AllShaped(calls) && LegalSession(calls)
    ensures Audited(RunSession(cfg, EMPTY, calls).state)
  {
    SessionIsLegal(calls);
    SessionIsRun(cfg, EMPTY, calls);
    AuditDeterminesStatus(cfg, Flattened(calls));
  }
}
