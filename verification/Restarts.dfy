/** Stores that are closed and reopened between operations, and when nobody can tell. */
module Restarts {
  import opened Policy
  import opened StoreModel
  import opened StoreLaws
  import Journal
  import Table

  datatype Moment = Did(op: Op) | Restart

  // The operations of a life with restarts.
  function OpsOf(life: seq<Moment>): seq<Op> {
    if life == [] then []
    else
      var before, last := OpsOf(life[..|life| - 1]), life[|life| - 1];
      if last.Did? then before + [last.op] else before
  }

  // The operations of the life are a legal run.
  predicate LegalLife(life: seq<Moment>) {
    life == [] ||
    var init, last := life[..|life| - 1], life[|life| - 1];
    LegalLife(init) && (last.Did? ==> FreshOp(last.op, Drawn(OpsOf(init))))
  }

  lemma {:induction false} LegalLifeIsLegal(life: seq<Moment>)
    requires LegalLife(life)
    ensures Legal(OpsOf(life))
  {
    if life != [] {
      var init, last := life[..|life| - 1], life[|life| - 1];
      LegalLifeIsLegal(init);
      if last.Did? {
        LegalOneMore(OpsOf(init), last.op);
      }
    }
  }

  // What the callers of a run that is never interrupted are told.
  function Replies(cfg: Config, ops: seq<Op>): seq<Reply> {
    if ops == [] then []
    else
      var init := ops[..|ops| - 1];
      Replies(cfg, init) + [Do(cfg, Run(cfg, EMPTY, init), ops[|ops| - 1]).reply]
  }

  // ----- One operation -----

  // Operations look at the memories and the events, and not at how the index stores its empty entries.
  lemma SameStep(cfg: Config, a: State, b: State, op: Op)
    requires Lawful(cfg) && Inv(a) && Inv(b) && Journal.SameStore(a, b) && FreshOp(op, set id | id in Ids(a.rows))
    ensures var x, y := Do(cfg, a, op), Do(cfg, b, op);
            x.actions == y.actions && x.reply == y.reply && Journal.SameStore(x.state, y.state)
    ensures Inv(Do(cfg, a, op).state)
  {
    DoKeepsInv(cfg, a, op);
    DoKeepsInv(cfg, b, op);
    SameEffects(cfg, a, b, op);
  }

  lemma SameEffects(cfg: Config, a: State, b: State, op: Op)
    requires Inv(a) && Inv(b) && a.rows == b.rows && a.events == b.events
    ensures var x, y := Do(cfg, a, op), Do(cfg, b, op);
            && x.actions == y.actions && x.reply == y.reply
            && x.state.rows == y.state.rows && x.state.events == y.state.events
  {
    if op.Query? {
      QueryIsScan(cfg, a, op.request, op.clock, op.at);
      QueryIsScan(cfg, b, op.request, op.clock, op.at);
    }
  }

  // ----- The log -----

  datatype LogLife = LogLife(state: State, files: Journal.Files, replies: seq<Reply>)

  function OnLog(cfg: Config, life: seq<Moment>): LogLife {
    if life == [] then LogLife(EMPTY, Journal.NO_FILES, [])
    else
      var before := OnLog(cfg, life[..|life| - 1]);
      match life[|life| - 1]
      case Did(op) =>
        var step := Do(cfg, before.state, op);
        LogLife(step.state, Journal.AppendAll(before.files, step.actions), before.replies + [step.reply])
      case Restart => before.(state := Journal.Load(before.files))
  }

  // The life so far cannot be told from the run of its operations.
  ghost predicate LogUnseen(cfg: Config, life: seq<Moment>) {
    var now, ops := OnLog(cfg, life), OpsOf(life);
    && now.files == Journal.FilesOf(cfg, ops) && now.replies == Replies(cfg, ops)
    && Inv(now.state) && Journal.SameStore(now.state, Run(cfg, EMPTY, ops))
  }

  lemma LogGoesOn(cfg: Config, life: seq<Moment>, op: Op)
    requires Lawful(cfg) && Legal(OpsOf(life)) && FreshOp(op, Drawn(OpsOf(life))) && LogUnseen(cfg, life)
    ensures LogUnseen(cfg, life + [Did(op)])
  {
    var ops, before := OpsOf(life), OnLog(cfg, life);
    assert (life + [Did(op)])[..|life|] == life && (ops + [op])[..|ops|] == ops;
    RunKeepsInv(cfg, ops);
    SameStep(cfg, before.state, Run(cfg, EMPTY, ops), op);
    Journal.AppendAllSplit(Journal.NO_FILES, Actions(cfg, EMPTY, ops), Do(cfg, before.state, op).actions);
  }

  lemma LogRestarts(cfg: Config, life: seq<Moment>)
    requires Lawful(cfg) && Legal(OpsOf(life)) && LogUnseen(cfg, life)
    ensures LogUnseen(cfg, life + [Restart])
  {
    var ops := OpsOf(life);
    assert (life + [Restart])[..|life|] == life;
    Journal.ReopenRestores(cfg, ops);
    Journal.LoadIsValid(Journal.FilesOf(cfg, ops));
  }

  // Closing and reopening the log at any points of a run is not observable: files, replies and the final
  // store are those of the run of all operations together.
  lemma {:induction false} LogRestartsUnseen(cfg: Config, life: seq<Moment>)
    requires Lawful(cfg) && LegalLife(life)
    ensures LogUnseen(cfg, life)
  {
    if life == [] {
      Journal.RunKeepsInvEmpty();
    } else {
      var init, last := life[..|life| - 1], life[|life| - 1];
      assert life == init + [last];
      LegalLifeIsLegal(init);
      LogRestartsUnseen(cfg, init);
      match last
      case Did(op) => LogGoesOn(cfg, init, op);
      case Restart => LogRestarts(cfg, init);
    }
  }

  // ----- The table -----

  datatype TableLife = TableLife(state: State, db: Table.Db, replies: seq<Reply>)

  function OnTable(cfg: Config, life: seq<Moment>): TableLife {
    if life == [] then TableLife(EMPTY, Table.NO_ROWS, [])
    else
      var before := OnTable(cfg, life[..|life| - 1]);
      match life[|life| - 1]
      case Did(op) =>
        var step := Do(cfg, before.state, op);
        TableLife(step.state, Table.ExecuteAll(before.db, step.actions), before.replies + [step.reply])
      case Restart => before.(state := Table.Load(before.db))
  }

  ghost predicate TableUnseen(cfg: Config, life: seq<Moment>) {
    var now, ops := OnTable(cfg, life), OpsOf(life);
    && now.db == Table.DbOf(cfg, ops) && now.replies == Replies(cfg, ops)
    && Inv(now.state) && Journal.SameStore(now.state, Run(cfg, EMPTY, ops))
  }

  ghost predicate AllSettled(s: State) {
    forall r :: r in s.rows ==> Table.Settled(r)
  }

  lemma TableGoesOn(cfg: Config, life: seq<Moment>, op: Op)
    requires Lawful(cfg) && Legal(OpsOf(life)) && FreshOp(op, Drawn(OpsOf(life))) && TableUnseen(cfg, life)
    ensures TableUnseen(cfg, life + [Did(op)])
  {
    var ops, before := OpsOf(life), OnTable(cfg, life);
    assert (life + [Did(op)])[..|life|] == life && (ops + [op])[..|ops|] == ops;
    RunKeepsInv(cfg, ops);
    SameStep(cfg, before.state, Run(cfg, EMPTY, ops), op);
    Table.ExecuteAllSplit(Table.NO_ROWS, Actions(cfg, EMPTY, ops), Do(cfg, before.state, op).actions);
  }

  lemma TableRestarts(cfg: Config, life: seq<Moment>)
    requires Lawful(cfg) && Legal(OpsOf(life)) && TableUnseen(cfg, life)
    ensures TableUnseen(cfg, life + [Restart]) <==> AllSettled(Run(cfg, EMPTY, OpsOf(life)))
  {
    var ops := OpsOf(life);
    assert (life + [Restart])[..|life|] == life;
    Table.RunSynced(cfg, ops);
    RunKeepsInv(cfg, ops);
    Table.LoadRestores(Table.DbOf(cfg, ops), Run(cfg, EMPTY, ops));
  }

  // At no point of the life so far could it be told.
  ghost predicate NeverSeen(cfg: Config, life: seq<Moment>) {
    TableUnseen(cfg, life) && (life == [] || NeverSeen(cfg, life[..|life| - 1]))
  }

  ghost predicate SettledAtRestarts(cfg: Config, life: seq<Moment>) {
    life == [] ||
    var init, last := life[..|life| - 1], life[|life| - 1];
    SettledAtRestarts(cfg, init) && (last.Restart? ==> AllSettled(Run(cfg, EMPTY, OpsOf(init))))
  }

  lemma TableStep(cfg: Config, life: seq<Moment>, last: Moment)
    requires Lawful(cfg) && LegalLife(life + [last]) && Legal(OpsOf(life)) && TableUnseen(cfg, life)
    ensures TableUnseen(cfg, life + [last]) <==> (last.Restart? ==> AllSettled(Run(cfg, EMPTY, OpsOf(life))))
  {
    assert (life + [last])[..|life|] == life;
    match last
    case Did(op) => TableGoesOn(cfg, life, op);
    case Restart => TableRestarts(cfg, life);
  }

  // Reopening the table is never observable if and only if every memory is settled at each reopening.
  lemma {:induction false} TableRestartsUnseenIff(cfg: Config, life: seq<Moment>)
    requires Lawful(cfg) && LegalLife(life)
    ensures NeverSeen(cfg, life) <==> SettledAtRestarts(cfg, life)
  {
    if life == [] {
      Journal.RunKeepsInvEmpty();
    } else {
      var init, last := life[..|life| - 1], life[|life| - 1];
      assert life == init + [last];
      LegalLifeIsLegal(init);
      TableRestartsUnseenIff(cfg, init);
      if NeverSeen(cfg, init) {
        TableStep(cfg, init, last);
      }
    }
  }

  // In particular when the clock is not empty at changes of status and confidence.
  lemma TimedRestartsUnseen(cfg: Config, life: seq<Moment>)
    requires Lawful(cfg) && LegalLife(life) && Table.Timed(OpsOf(life))
    ensures NeverSeen(cfg, life)
  {
    TimedIsSettled(cfg, life);
    TableRestartsUnseenIff(cfg, life);
  }

  lemma {:induction false} TimedIsSettled(cfg: Config, life: seq<Moment>)
    requires Lawful(cfg) && LegalLife(life) && Table.Timed(OpsOf(life))
    ensures SettledAtRestarts(cfg, life)
  {
    if life != [] {
      var init := life[..|life| - 1];
      LegalLifeIsLegal(init);
      TimedStart(OpsOf(init), OpsOf(life));
      TimedIsSettled(cfg, init);
      Table.TimedRunsSettle(cfg, OpsOf(init));
    }
  }

  lemma TimedStart(before: seq<Op>, after: seq<Op>)
    requires before <= after && Table.Timed(after)
    ensures Table.Timed(before)
  {
    assert forall op :: op in before ==> op in after;
  }
}
