/** What an import takes in of any records, readable or not: which, in which order, with which contents. */
module ImportLaws {
  import opened Seqs
  import opened Models
  import opened Policy
  import opened Serialize
  import opened StoreModel
  import opened Exchange
  import opened Positions
  import opened Gate

  // The record can be read, and what is read passes every check of the gate.
  predicate Importable(cfg: Config, record: Wire) {
    MemoryFromDict(record).Some? && PassesAll(MemoryFromDict(record).value, cfg)
  }

  // The row keeps what the record says and the gate lets in, under a new id and the time of its import.
  ghost predicate TakenIn(cfg: Config, record: Wire, token: Token, r: Record) {
    MemoryFromDict(record).Some? &&
    var m := MemoryFromDict(record).value;
    && LetIn(m, r, cfg) && r.status == m.status && r.confidence == m.confidence
    && r.id == token.id && r.createdAt == token.at && r.updatedAt == token.at
  }

  lemma ClearedPasses(cfg: Config, m: Record)
    ensures PassesAll(Cleared(m), cfg) <==> PassesAll(m, cfg)
    ensures forall r :: LetIn(Cleared(m), r, cfg) <==> LetIn(m, r, cfg)
  {
    forall i | 0 <= i < |CHECKS| ensures CHECKS[i].Passes(Cleared(m), cfg) <==> CHECKS[i].Passes(m, cfg) {
      SameCheck(CHECKS[i], cfg, m);
    }
  }

  lemma SameCheck(check: Check, cfg: Config, m: Record)
    ensures check.Passes(Cleared(m), cfg) <==> check.Passes(m, cfg)
  {
  }

  // Everything that one record of an import does.
  lemma OneImported(cfg: Config, t: Tally, record: Wire, token: Token)
    requires Lawful(cfg) && Inv(t.state) && token.id != "" && token.id !in Ids(t.state.rows)
    ensures var u := ImportOne(cfg, t, record, token);
            && Inv(u.state)
            && if Importable(cfg, record) then
                 && u.imported == t.imported + 1 && u.rejected == t.rejected
                 && |u.state.rows| == |t.state.rows| + 1 && u.state.rows == t.state.rows + [u.state.rows[|t.state.rows|]]
                 && TakenIn(cfg, record, token, u.state.rows[|t.state.rows|])
               else
                 u.imported == t.imported && u.rejected == t.rejected + 1 && u.state.rows == t.state.rows
  {
    if MemoryFromDict(record).Some? {
      var m := MemoryFromDict(record).value;
      ClearedIsWellFormed(record);
      ImportedOrRejected(cfg, t, record, token);
      ClearedPasses(cfg, m);
      AddIsDecided(cfg, t.state, Cleared(m), token.id, token.at);
      DoKeepsInv(cfg, t.state, Add(Cleared(m), token.id, token.at));
    }
  }

  // Behind the first rows stand those taken from the wanted ones of the positions below n, in order.
  ghost predicate Added<T>(wanted: nat -> bool, taken: (nat, T) -> bool, first: seq<T>, n: nat, at: seq<nat>, rows: seq<T>) {
    && Rising(at, n) && (forall i: nat :: i < n ==> (Picked(at, i) <==> wanted(i)))
    && |rows| == |first| + |at| && rows[..|first|] == first
    && forall j :: 0 <= j < |at| ==> taken(at[j], rows[|first| + j])
  }

  lemma TakeOne<T>(wanted: nat -> bool, taken: (nat, T) -> bool, first: seq<T>, n: nat, at: seq<nat>, rows: seq<T>, r: T)
    requires Added(wanted, taken, first, n, at, rows) && wanted(n) && taken(n, r)
    ensures Added(wanted, taken, first, n + 1, at + [n], rows + [r])
  {
    PickedBefore(at, n);
    assert (rows + [r])[..|first|] == rows[..|first|];
    forall j | 0 <= j < |at + [n]| ensures taken((at + [n])[j], (rows + [r])[|first| + j]) {
      if j < |at| {
        assert (at + [n])[j] == at[j] && (rows + [r])[|first| + j] == rows[|first| + j];
      } else {
        assert (at + [n])[j] == n && (rows + [r])[|first| + j] == r;
      }
    }
  }

  lemma SkipOne<T>(wanted: nat -> bool, taken: (nat, T) -> bool, first: seq<T>, n: nat, at: seq<nat>, rows: seq<T>)
    requires Added(wanted, taken, first, n, at, rows) && !wanted(n)
    ensures Added(wanted, taken, first, n + 1, at, rows)
  {
    PickedBefore(at, n);
  }

  lemma PickedBefore(at: seq<nat>, n: nat)
    requires forall j :: 0 <= j < |at| ==> at[j] < n
    ensures !Picked(at, n) && Picked(at + [n], n)
    ensures forall i: nat :: i < n ==> (Picked(at + [n], i) <==> Picked(at, i))
  {
    assert (at + [n])[|at|] == n;
    forall i: nat | i < n && Picked(at, i) ensures Picked(at + [n], i) {
      var j :| 0 <= j < |at| && at[j] == i;
      assert (at + [n])[j] == i;
    }
  }

  // Which records are taken in, and which row comes from which.
  ghost function Chosen(cfg: Config, records: seq<Wire>): nat -> bool {
    (i: nat) => i < |records| && Importable(cfg, records[i])
  }

  ghost function From(cfg: Config, records: seq<Wire>, tokens: seq<Token>): (nat, Record) -> bool
    requires |records| == |tokens|
  {
    (i: nat, r: Record) => i < |records| && TakenIn(cfg, records[i], tokens[i], r)
  }

  // Of the first n records the importable ones are taken in, and the others counted as rejected.
  ghost predicate AllTaken(cfg: Config, first: seq<Record>, records: seq<Wire>, tokens: seq<Token>, n: nat, at: seq<nat>, t: Tally) {
    && n <= |records| == |tokens|
    && Added(Chosen(cfg, records), From(cfg, records, tokens), first, n, at, t.state.rows)
    && t.imported == |at| && t.rejected == n - |at|
  }

  lemma TakenUnder(cfg: Config, records: seq<Wire>, tokens: seq<Token>, i: nat, r: Record)
    requires |records| == |tokens| && From(cfg, records, tokens)(i, r)
    ensures i < |tokens| && r.id == tokens[i].id
  {
  }

  lemma OtherId(cfg: Config, first: seq<Record>, records: seq<Wire>, tokens: seq<Token>, n: nat, at: seq<nat>, t: Tally, k: nat)
    requires FreshTokens(tokens, first) && n < |tokens| && AllTaken(cfg, first, records, tokens, n, at, t) && k < |t.state.rows|
    ensures t.state.rows[k].id != tokens[n].id
  {
    var rows := t.state.rows;
    if k < |first| {
      assert rows[..|first|][k] == first[k] && Ids(first)[k] == first[k].id;
    } else {
      TakenUnder(cfg, records, tokens, at[k - |first|], rows[|first| + (k - |first|)]);
    }
  }

  lemma StillFresh(cfg: Config, first: seq<Record>, records: seq<Wire>, tokens: seq<Token>, n: nat, at: seq<nat>, t: Tally)
    requires FreshTokens(tokens, first) && n < |tokens| && AllTaken(cfg, first, records, tokens, n, at, t)
    ensures tokens[n].id !in Ids(t.state.rows)
  {
    forall k | 0 <= k < |t.state.rows| ensures Ids(t.state.rows)[k] != tokens[n].id {
      OtherId(cfg, first, records, tokens, n, at, t, k);
    }
  }

  lemma OneMoreRecord(cfg: Config, first: seq<Record>, records: seq<Wire>, tokens: seq<Token>, n: nat, before: seq<nat>, t: Tally)
    returns (at: seq<nat>)
    requires Lawful(cfg) && Inv(t.state) && n < |records| == |tokens|
    requires tokens[n].id != "" && tokens[n].id !in Ids(t.state.rows)
    requires AllTaken(cfg, first, records, tokens, n, before, t)
    ensures Inv(ImportOne(cfg, t, records[n], tokens[n]).state)
    ensures AllTaken(cfg, first, records, tokens, n + 1, at, ImportOne(cfg, t, records[n], tokens[n]))
  {
    OneImported(cfg, t, records[n], tokens[n]);
    var u := ImportOne(cfg, t, records[n], tokens[n]);
    if Importable(cfg, records[n]) {
      TakeOne(Chosen(cfg, records), From(cfg, records, tokens), first, n, before, t.state.rows, u.state.rows[|t.state.rows|]);
      at := before + [n];
    } else {
      SkipOne(Chosen(cfg, records), From(cfg, records, tokens), first, n, before, t.state.rows);
      at := before;
    }
  }

  // An import takes in exactly the importable records, in their order, behind what is stored, and counts them;
  // all others are counted as rejected.
  lemma ImportExactly(cfg: Config, s: State, records: seq<Wire>, tokens: seq<Token>) returns (at: seq<nat>)
    requires Lawful(cfg) && Inv(s) && |records| == |tokens| && FreshTokens(tokens, s.rows)
    ensures Inv(Import(cfg, s, records, tokens).state)
    ensures AllTaken(cfg, s.rows, records, tokens, |records|, at, Import(cfg, s, records, tokens))
  {
    at := ImportFirst(cfg, s, records, tokens, |records|);
    FullPrefix(records, |records|);
    FullPrefix(tokens, |tokens|);
  }

  lemma {:induction false} ImportFirst(cfg: Config, s: State, records: seq<Wire>, tokens: seq<Token>, n: nat) returns (at: seq<nat>)
    requires Lawful(cfg) && Inv(s) && n <= |records| == |tokens| && FreshTokens(tokens, s.rows)
    ensures Inv(Import(cfg, s, records[..n], tokens[..n]).state)
    ensures AllTaken(cfg, s.rows, records, tokens, n, at, Import(cfg, s, records[..n], tokens[..n]))
  {
    if n == 0 {
      at := [];
      NothingTaken(cfg, s, records, tokens);
    } else {
      var before := ImportFirst(cfg, s, records, tokens, n - 1);
      var t := Import(cfg, s, records[..n - 1], tokens[..n - 1]);
      StillFresh(cfg, s.rows, records, tokens, n - 1, before, t);
      at := OneMoreRecord(cfg, s.rows, records, tokens, n - 1, before, t);
      NextImport(cfg, s, records, tokens, n - 1);
    }
  }

  lemma NothingTaken(cfg: Config, s: State, records: seq<Wire>, tokens: seq<Token>)
    requires |records| == |tokens|
    ensures Import(cfg, s, records[..0], tokens[..0]) == Tally(s, [], 0, 0)
    ensures AllTaken(cfg, s.rows, records, tokens, 0, [], Tally(s, [], 0, 0))
  {
  }

  lemma NextImport(cfg: Config, s: State, records: seq<Wire>, tokens: seq<Token>, n: nat)
    requires n < |records| == |tokens|
    ensures Import(cfg, s, records[..n + 1], tokens[..n + 1]) ==
            ImportOne(cfg, Import(cfg, s, records[..n], tokens[..n]), records[n], tokens[n])
  {
    PrefixOfPrefix(records, n + 1, n);
    PrefixOfPrefix(tokens, n + 1, n);
    ImportNext(cfg, s, records[..n + 1], tokens[..n + 1]);
  }
}
