/** Export and import: what is counted, what is rejected, and that contents survive the round trip. */
module Exchange {
  import opened Seqs
  import opened Models
  import opened Policy
  import opened Serialize
  import opened StoreModel
  import opened StoreLaws
  import opened Text

  // The memories part of an export of all scopes.
  function Export(s: State): seq<Wire> {
    Map(MemoryToDict, s.rows)
  }

  // The id and clock value that the import loop would use for one record.
  datatype Token = Token(id: string, at: string)

  // A candidate with the store-owned fields dropped.
  function Cleared(r: Record): Record {
    r.(id := "", createdAt := "", updatedAt := "")
  }

  datatype Tally = Tally(state: State, actions: seq<Action>, imported: nat, rejected: nat)

  lemma ClearedIsWellFormed(record: Wire)
    requires MemoryFromDict(record).Some?
    ensures WellFormed(Cleared(MemoryFromDict(record).value))
  {
    ReadIsWellFormed(record);
    var m := MemoryFromDict(record).value;
    WellFormedUpdates(m, "", "", "", m.status, m.confidence);
  }

  // import_memories: unreadable records and refused writes are counted as rejected. Setting the
  // status again never happens, because the gate keeps it.
  function ImportOne(cfg: Config, t: Tally, record: Wire, token: Token): Tally {
    match MemoryFromDict(record)
    case None => t.(rejected := t.rejected + 1)
    case Some(m) =>
      var step := DoAdd(cfg, t.state, Cleared(m), token.id, token.at);
      var u := t.(state := step.state, actions := t.actions + step.actions);
      if step.reply.Stored? then u.(imported := u.imported + 1) else u.(rejected := u.rejected + 1)
  }

  function Import(cfg: Config, s: State, records: seq<Wire>, tokens: seq<Token>): Tally
    requires |records| == |tokens|
  {
    if records == [] then Tally(s, [], 0, 0)
    else
      var n := |records| - 1;
      ImportOne(cfg, Import(cfg, s, records[..n], tokens[..n]), records[n], tokens[n])
  }

  // A readable record is imported if its add is not refused, and rejected otherwise.
  lemma ImportedOrRejected(cfg: Config, t: Tally, record: Wire, token: Token)
    requires MemoryFromDict(record).Some?
    ensures var step := DoAdd(cfg, t.state, Cleared(MemoryFromDict(record).value), token.id, token.at);
            var u := ImportOne(cfg, t, record, token);
            && u.state == step.state && u.actions == t.actions + step.actions
            && (if step.reply.Stored? then u.imported == t.imported + 1 && u.rejected == t.rejected
                else u.imported == t.imported && u.rejected == t.rejected + 1)
  {
  }

  // The calls of add an import makes.
  function ImportOps(records: seq<Wire>, tokens: seq<Token>): seq<Op>
    requires |records| == |tokens|
  {
    if records == [] then []
    else
      var n := |records| - 1;
      ImportOps(records[..n], tokens[..n]) +
      match MemoryFromDict(records[n])
      case None => []
      case Some(m) => [Add(Cleared(m), tokens[n].id, tokens[n].at)]
  }

  // An import is a run of adds, and every record is counted once.
  lemma {:induction false} ImportIsRun(cfg: Config, s: State, records: seq<Wire>, tokens: seq<Token>)
    requires |records| == |tokens|
    ensures var t := Import(cfg, s, records, tokens);
            && t.imported + t.rejected == |records|
            && t.state == Run(cfg, s, ImportOps(records, tokens))
            && t.actions == Actions(cfg, s, ImportOps(records, tokens))
  {
    if records != [] {
      var n := |records| - 1;
      ImportIsRun(cfg, s, records[..n], tokens[..n]);
      var before, ops := ImportOps(records[..n], tokens[..n]), ImportOps(records, tokens);
      if MemoryFromDict(records[n]).Some? {
        assert ops[..|ops| - 1] == before;
      } else {
        assert ops == before;
      }
    }
  }

  // The ids an import assigns are drawn at random: distinct, and new to the store.
  ghost predicate FreshTokens(tokens: seq<Token>, rows: seq<Record>) {
    && (forall i :: 0 <= i < |tokens| ==> tokens[i].id != "" && tokens[i].id !in Ids(rows))
    && forall i, j :: 0 <= i < j < |tokens| ==> tokens[i].id != tokens[j].id
  }

  // The imported copy of a record: its contents with the store-owned fields assigned afresh.
  function Renewed(r: Record, t: Token): Record {
    r.(id := t.id, createdAt := t.at, updatedAt := t.at)
  }

  function RenewedAll(rows: seq<Record>, tokens: seq<Token>): (r: seq<Record>)
    requires |rows| == |tokens|
    ensures |r| == |rows|
    ensures forall i :: 0 <= i < |rows| ==> r[i] == Renewed(rows[i], tokens[i])
  {
    seq(|rows|, i requires 0 <= i < |rows| => Renewed(rows[i], tokens[i]))
  }

  lemma RenewedLast(rows: seq<Record>, tokens: seq<Token>)
    requires 0 < |rows| == |tokens|
    ensures var n := |rows| - 1;
            RenewedAll(rows, tokens) == RenewedAll(rows[..n], tokens[..n]) + [Renewed(rows[n], tokens[n])]
  {
  }

  // What the gate lets in of a record that comes back.
  function Readmitted(cfg: Config, r: Record, t: Token): seq<Record> {
    match Review(Cleared(r), cfg)
    case Accepted(c) => [Renewed(c, t)]
    case Denied(_) => []
  }

  function ReadmittedAll(cfg: Config, rows: seq<Record>, tokens: seq<Token>): (r: seq<Record>)
    requires |rows| == |tokens|
    ensures |r| <= |rows|
  {
    if rows == [] then []
    else
      var n := |rows| - 1;
      ReadmittedAll(cfg, rows[..n], tokens[..n]) + Readmitted(cfg, rows[n], tokens[n])
  }

  lemma {:induction false} ReadmittedIds(cfg: Config, rows: seq<Record>, tokens: seq<Token>, id: string)
    requires |rows| == |tokens| && forall i :: 0 <= i < |tokens| ==> tokens[i].id != id
    ensures id !in Ids(ReadmittedAll(cfg, rows, tokens))
  {
    if rows != [] {
      var n := |rows| - 1;
      ReadmittedIds(cfg, rows[..n], tokens[..n], id);
      IdsLack(ReadmittedAll(cfg, rows[..n], tokens[..n]), Readmitted(cfg, rows[n], tokens[n]), id);
    }
  }

  lemma ImportReadmitsOne(cfg: Config, t: Tally, r: Record, token: Token)
    requires WellFormed(r) && token.id !in Ids(t.state.rows)
    ensures var u, back := ImportOne(cfg, t, MemoryToDict(r), token), Readmitted(cfg, r, token);
            && u.state.rows == t.state.rows + back
            && u.imported == t.imported + |back| && u.rejected == t.rejected + 1 - |back|
  {
    RoundTrip(r);
  }

  lemma ImportNext(cfg: Config, s: State, records: seq<Wire>, tokens: seq<Token>)
    requires 0 < |records| == |tokens|
    ensures var n := |records| - 1;
            Import(cfg, s, records, tokens) == ImportOne(cfg, Import(cfg, s, records[..n], tokens[..n]), records[n], tokens[n])
  {
  }

  // Whatever the mode, importing exported records appends exactly what the gate lets in of each, in order,
  // and rejects the rest.
  lemma {:induction false} ImportReadmits(cfg: Config, s: State, rows: seq<Record>, tokens: seq<Token>)
    requires |rows| == |tokens| && FreshTokens(tokens, s.rows) && forall r :: r in rows ==> WellFormed(r)
    ensures var t, back := Import(cfg, s, Map(MemoryToDict, rows), tokens), ReadmittedAll(cfg, rows, tokens);
            && t.state.rows == s.rows + back
            && t.imported == |back| && t.rejected == |rows| - |back|
  {
    if rows != [] {
      var n := |rows| - 1;
      MapLast(MemoryToDict, rows);
      assert Map(MemoryToDict, rows)[..n] == Map(MemoryToDict, rows[..n]);
      assert rows[n] in rows && forall r :: r in rows[..n] ==> r in rows;
      ImportReadmits(cfg, s, rows[..n], tokens[..n]);
      var back := ReadmittedAll(cfg, rows[..n], tokens[..n]);
      StillNew(cfg, s, rows, tokens, back);
      ImportNext(cfg, s, Map(MemoryToDict, rows), tokens);
      OneMoreReadmitted(cfg, s.rows, Import(cfg, s, Map(MemoryToDict, rows[..n]), tokens[..n]), back, rows[n], tokens[n]);
    }
  }

  lemma OneMoreReadmitted(cfg: Config, first: seq<Record>, t: Tally, back: seq<Record>, r: Record, token: Token)
    requires WellFormed(r) && t.state.rows == first + back && token.id !in Ids(first + back)
    ensures var u, more := ImportOne(cfg, t, MemoryToDict(r), token), Readmitted(cfg, r, token);
            && u.state.rows == first + (back + more)
            && u.imported == t.imported + |more| && u.rejected == t.rejected + 1 - |more|
  {
    ImportReadmitsOne(cfg, t, r, token);
    AssocStep(first, back, Readmitted(cfg, r, token));
  }

  lemma IdsLack(a: seq<Record>, b: seq<Record>, id: string)
    requires id !in Ids(a) && id !in Ids(b)
    ensures id !in Ids(a + b)
  {
    MapAppend(IdOf, a, b);
  }

  lemma StillNew(cfg: Config, s: State, rows: seq<Record>, tokens: seq<Token>, back: seq<Record>)
    requires 0 < |rows| == |tokens| && FreshTokens(tokens, s.rows)
    requires back == ReadmittedAll(cfg, rows[..|rows| - 1], tokens[..|rows| - 1])
    ensures tokens[|rows| - 1].id !in Ids(s.rows + back)
  {
    var n := |rows| - 1;
    assert forall i :: 0 <= i < n ==> tokens[..n][i].id != tokens[n].id;
    ReadmittedIds(cfg, rows[..n], tokens[..n], tokens[n].id);
    IdsLack(s.rows, back, tokens[n].id);
  }

  // The gate lets a record in again and leaves its contents alone.
  predicate Unchanged(cfg: Config, r: Record) {
    Review(Cleared(r), cfg) == Accepted(Cleared(r))
  }

  lemma RenewedSame(cfg: Config, r: Record, t: Token)
    ensures Readmitted(cfg, r, t) == [Renewed(r, t)] <==> Unchanged(cfg, r)
  {
    ReviewShape(Cleared(r), cfg);
    if Readmitted(cfg, r, t) == [Renewed(r, t)] {
      var c := Review(Cleared(r), cfg).record;
      assert Renewed(c, t) == [Renewed(c, t)][0] == Renewed(r, t);
      assert c == Renewed(c, t).(id := "", createdAt := "", updatedAt := "");
    }
  }

  lemma {:induction false} AllUnchanged(cfg: Config, rows: seq<Record>, tokens: seq<Token>)
    requires |rows| == |tokens|
    ensures ReadmittedAll(cfg, rows, tokens) == RenewedAll(rows, tokens) <==> forall r :: r in rows ==> Unchanged(cfg, r)
  {
    if rows == [] {
      assert RenewedAll(rows, tokens) == [];
    } else {
      var n := |rows| - 1;
      assert forall r :: r in rows <==> r in rows[..n] || r == rows[n];
      AllUnchanged(cfg, rows[..n], tokens[..n]);
      RenewedSame(cfg, rows[n], tokens[n]);
      RenewedLast(rows, tokens);
      LastAgree(ReadmittedAll(cfg, rows[..n], tokens[..n]), Readmitted(cfg, rows[n], tokens[n]),
                RenewedAll(rows[..n], tokens[..n]), Renewed(rows[n], tokens[n]));
    }
  }

  lemma LastAgree<T>(a: seq<T>, xs: seq<T>, b: seq<T>, y: T)
    requires |a| <= |b| && |xs| <= 1
    ensures a + xs == b + [y] <==> a == b && xs == [y]
  {
    if a + xs == b + [y] {
      assert |xs| == 1 && |a| == |b|;
      assert a == (a + xs)[..|a|] == (b + [y])[..|b|] == b;
      assert xs[0] == (a + xs)[|a|] == (b + [y])[|b|];
    }
  }

  lemma {:induction false} RowsPassGate(cfg: Config, ops: seq<Op>)
    requires Lawful(cfg) && Legal(ops) && cfg.piiMode != RedactPii
    ensures forall r :: r in Run(cfg, EMPTY, ops).rows ==> Review(r, cfg).Accepted?
  {
    if ops != [] {
      var init, op := ops[..|ops| - 1], ops[|ops| - 1];
      RowsPassGate(cfg, init);
      var s := Run(cfg, EMPTY, init);
      forall r | r in Do(cfg, s, op).state.rows ensures Review(r, cfg).Accepted? {
        RowOrigin(cfg, s, op, r);
        if r !in s.rows {
          var m :| (m in s.rows || (op.Add? && m == op.memory && Review(m, cfg) == Accepted(m))) && Renamed(m, r);
          ReviewReadsContent(m, r, cfg);
        }
      }
    }
  }

  // r is m with other store-owned fields, status or confidence.
  ghost predicate Renamed(m: Record, r: Record) {
    r == m.(id := r.id, createdAt := r.createdAt, updatedAt := r.updatedAt,
            status := r.status, confidence := r.confidence)
  }

  // Where a row comes from: it was there, or it is a stored or added memory with other store-owned fields.
  lemma RowOrigin(cfg: Config, s: State, op: Op, r: Record)
    requires cfg.piiMode != RedactPii && r in Do(cfg, s, op).state.rows
    ensures || r in s.rows
            || exists m :: (m in s.rows || (op.Add? && m == op.memory && Review(m, cfg) == Accepted(m))) && Renamed(m, r)
  {
    match op
    case Add(m, newId, at) =>
      ReviewShape(m, cfg);
      assert Renamed(m, m.(id := newId, createdAt := at, updatedAt := at));
    case SetStatus(id, status, at) =>
      if Lookup(s.rows, id).Some? {
        var m := Lookup(s.rows, id).value;
        assert m in s.rows && Renamed(m, m.(status := status, updatedAt := at));
      }
    case SetConfidence(id, confidence, at) =>
      if Lookup(s.rows, id).Some? {
        var m := Lookup(s.rows, id).value;
        assert m in s.rows && Renamed(m, m.(confidence := confidence, updatedAt := at));
      }
    case Forget(id, at) =>
    case Query(_, _, _) =>
  }

  // Exporting a store and importing the export into an empty one loses and changes nothing but ids and times.
  ghost predicate SurvivesExchange(cfg: Config, s: State, tokens: seq<Token>)
    requires |tokens| == |s.rows|
  {
    var t := Import(cfg, EMPTY, Export(s), tokens);
    t.rejected == 0 && t.imported == |s.rows| && t.state.rows == RenewedAll(s.rows, tokens)
  }

  // For every run and in every mode, the round trip succeeds exactly when the gate, met again, leaves each
  // stored memory alone.
  lemma RoundTripIff(cfg: Config, ops: seq<Op>, tokens: seq<Token>)
    requires Lawful(cfg) && Legal(ops)
    requires |tokens| == |Run(cfg, EMPTY, ops).rows| && FreshTokens(tokens, [])
    ensures SurvivesExchange(cfg, Run(cfg, EMPTY, ops), tokens) <==>
              forall r :: r in Run(cfg, EMPTY, ops).rows ==> Unchanged(cfg, r)
  {
    RunKeepsInv(cfg, ops);
    var rows := Run(cfg, EMPTY, ops).rows;
    ImportReadmits(cfg, EMPTY, rows, tokens);
    AllUnchanged(cfg, rows, tokens);
    assert EMPTY.rows + ReadmittedAll(cfg, rows, tokens) == ReadmittedAll(cfg, rows, tokens);
  }

  lemma ClearedContent(m: Record, cfg: Config)
    ensures ControlledText(Cleared(m)) == ControlledText(m) && SizeProblem(Cleared(m), cfg) == SizeProblem(m, cfg)
    ensures RedactedCopy(Cleared(m), cfg) == Cleared(RedactedCopy(m, cfg))
  {
  }

  // In redact mode a second pass leaves a memory alone when it is within the limits, shows no secret, and
  // redacting it changes nothing.
  predicate Stable(cfg: Config, r: Record) {
    && SizeProblem(r, cfg) == None
    && (cfg.scanSecrets ==> forall t :: t in ControlledText(r) ==> !cfg.secret(t))
    && RedactedCopy(r, cfg) == r
  }

  lemma UnchangedMeans(cfg: Config, r: Record)
    requires WellFormed(r)
    ensures Unchanged(cfg, r) <==> if cfg.piiMode == RedactPii then Stable(cfg, r) else Review(r, cfg).Accepted?
  {
    ReviewShape(Cleared(r), cfg);
    ClearedContent(r, cfg);
    if cfg.piiMode == RedactPii {
      var copy := RedactedCopy(r, cfg);
      assert copy.id == r.id && copy.createdAt == r.createdAt && copy.updatedAt == r.updatedAt;
      assert Cleared(copy) == Cleared(r) <==> copy == r;
      assert !Blank(r.source.ref);
    } else {
      ReviewReadsContent(r, Cleared(r), cfg);
    }
  }

  // In redact mode the round trip of any run succeeds exactly when each stored memory is stable: sizes and
  // secrets are judged on the placeholders, and the placeholders are redacted once more.
  lemma RedactRoundTripIff(cfg: Config, ops: seq<Op>, tokens: seq<Token>)
    requires cfg.piiMode == RedactPii && Lawful(cfg) && Legal(ops)
    requires |tokens| == |Run(cfg, EMPTY, ops).rows| && FreshTokens(tokens, [])
    ensures SurvivesExchange(cfg, Run(cfg, EMPTY, ops), tokens) <==>
              forall r :: r in Run(cfg, EMPTY, ops).rows ==> Stable(cfg, r)
  {
    RoundTripIff(cfg, ops, tokens);
    RunKeepsInv(cfg, ops);
    forall r | r in Run(cfg, EMPTY, ops).rows ensures Unchanged(cfg, r) <==> Stable(cfg, r) {
      UnchangedMeans(cfg, r);
    }
  }

  // In the other modes it succeeds for every run.
  lemma ExportImportRoundTrip(cfg: Config, ops: seq<Op>, tokens: seq<Token>)
    requires Lawful(cfg) && Legal(ops) && cfg.piiMode != RedactPii
    requires |tokens| == |Run(cfg, EMPTY, ops).rows| && FreshTokens(tokens, [])
    ensures SurvivesExchange(cfg, Run(cfg, EMPTY, ops), tokens)
  {
    RoundTripIff(cfg, ops, tokens);
    RunKeepsInv(cfg, ops);
    RowsPassGate(cfg, ops);
    forall r | r in Run(cfg, EMPTY, ops).rows ensures Unchanged(cfg, r) {
      UnchangedMeans(cfg, r);
    }
  }

  function Placeholder(s: string): string {
    if s == "a@b.co" then "[REDACTED_PII]" else s
  }

  const SIX_CHARACTER_TITLES :=
    Config(true, true, RedactPii, 6, 0, 0, 0, (s: string) => false, (s: string) => s == "a@b.co", Placeholder)

  const EMAIL_TITLE :=
    Record(Namespace("t", "p"), "a@b.co", "b", Source("doc", "r", None), "fact", [], [],
           1.0, "active", "", "", "", None, None)

  lemma EmailTitleIsWellFormed()
    ensures WellFormed(EMAIL_TITLE)
  {
    assert Trimmed("t") && Trimmed("p") && Trimmed("a@b.co") && Trimmed("b") && Trimmed("r");
    assert EMAIL_TITLE.namespace.Valid() && EMAIL_TITLE.source.Valid();
  }

  lemma PlaceholdersAreLawful()
    ensures Lawful(SIX_CHARACTER_TITLES)
  {
    assert Trimmed("[REDACTED_PII]");
  }

  const ONE_EMAIL := [Add(EMAIL_TITLE, "i", "t")]

  lemma OneEmailLegal()
    ensures Legal(ONE_EMAIL)
  {
    EmailTitleIsWellFormed();
    assert ONE_EMAIL[..0] == [] && Drawn(ONE_EMAIL[..0]) == {};
    assert FreshOp(ONE_EMAIL[0], {});
  }

  lemma OneEmailStored()
    ensures Run(SIX_CHARACTER_TITLES, EMPTY, ONE_EMAIL).rows ==
            [RedactedCopy(EMAIL_TITLE, SIX_CHARACTER_TITLES).(id := "i", createdAt := "t", updatedAt := "t")]
  {
    EmailAccepted();
    var cfg := SIX_CHARACTER_TITLES;
    assert ONE_EMAIL[..0] == [];
    assert Run(cfg, EMPTY, ONE_EMAIL) == Do(cfg, Run(cfg, EMPTY, ONE_EMAIL[..0]), ONE_EMAIL[0]).state;
    assert Run(cfg, EMPTY, ONE_EMAIL) == DoAdd(cfg, EMPTY, EMAIL_TITLE, "i", "t").state;
  }

  lemma EmailAccepted()
    ensures Review(EMAIL_TITLE, SIX_CHARACTER_TITLES) == Accepted(RedactedCopy(EMAIL_TITLE, SIX_CHARACTER_TITLES))
  {
    var cfg, m := SIX_CHARACTER_TITLES, EMAIL_TITLE;
    assert !Blank(m.source.ref) by { assert Trimmed("r"); }
    assert SizeProblem(m, cfg) == None;
  }

  // So the round trip fails in redact mode: a store of one short title, accepted and redacted, exports a
  // placeholder that is too long to come back.
  lemma RedactionBreaksRoundTrip(token: Token)
    requires token.id != ""
    ensures Legal(ONE_EMAIL) && Lawful(SIX_CHARACTER_TITLES) && |Run(SIX_CHARACTER_TITLES, EMPTY, ONE_EMAIL).rows| == 1
    ensures !SurvivesExchange(SIX_CHARACTER_TITLES, Run(SIX_CHARACTER_TITLES, EMPTY, ONE_EMAIL), [token])
  {
    OneEmailLegal();
    OneEmailStored();
    PlaceholdersAreLawful();
    var cfg := SIX_CHARACTER_TITLES;
    RedactRoundTripIff(cfg, ONE_EMAIL, [token]);
    var r := Run(cfg, EMPTY, ONE_EMAIL).rows[0];
    assert |r.title| == 14;
    assert !Stable(cfg, r);
    assert r in Run(cfg, EMPTY, ONE_EMAIL).rows;
  }
}
