/** MemoryStore as a state machine over values: rows in insertion order, namespace index and audit log. */
module StoreModel {
  import opened Seqs
  import opened Text
  import opened ThreadScope
  import opened Models
  import opened Policy

  // rows is the id-to-memory dictionary in its insertion order.
  datatype State = State(rows: seq<Record>, index: map<string, seq<string>>, events: seq<Event>)

  const EMPTY := State([], map[], [])

  // What an operation hands to the persistence hooks, in call order.
  datatype Action = Persist(record: Record) | Update(record: Record) | Erase(id: string) | Emit(event: Event)

  datatype Reply =
    | Stored(record: Record)
    | Refusal(reason: string)
    | NoSuchMemory
    | BadValue
    | BadThread
    | Matches(rows: seq<Record>)
    | Removed(existed: bool)

  datatype Step = Step(state: State, actions: seq<Action>, reply: Reply)

  // The arguments of query; an absent text or time is "".
  datatype Request = Request(
    namespace: Namespace,
    text: string,
    statuses: Option<set<string>>,
    bySubstring: bool,
    thread: Option<string>,
    mode: Option<string>,
    includeExpired: bool,
    now: string)

  // One call. The id a write would receive and the values the clock returns are inputs.
  datatype Op =
    | Add(memory: Record, newId: string, at: string)
    | SetStatus(id: string, status: string, at: string)
    | SetConfidence(id: string, confidence: real, at: string)
    | Forget(id: string, at: string)
    | Query(request: Request, clock: string, at: string)

  // ----- Rows and index -----

  function IdOf(r: Record): string {
    r.id
  }

  function Ids(rows: seq<Record>): seq<string> {
    Map(IdOf, rows)
  }

  function HasKey(key: string): Record -> bool {
    (r: Record) => r.namespace.AsKey() == key
  }

  function InNamespace(ns: Namespace): Record -> bool {
    (r: Record) => r.namespace == ns
  }

  function NotId(id: string): Record -> bool {
    (r: Record) => r.id != id
  }

  function Differs(x: string): string -> bool {
    (y: string) => y != x
  }

  // What the index must hold under a key: the ids of its rows, in row order.
  function IdsUnder(rows: seq<Record>, key: string): seq<string> {
    Ids(Filter(HasKey(key), rows))
  }

  function IndexAt(index: map<string, seq<string>>, key: string): seq<string> {
    if key in index then index[key] else []
  }

  function Position(rows: seq<Record>, id: string): (i: nat)
    ensures i <= |rows|
    ensures i < |rows| ==> rows[i].id == id
    ensures i == |rows| <==> id !in Ids(rows)
  {
    if rows == [] then 0
    else
      var i := Position(rows[..|rows| - 1], id);
      assert Ids(rows) == Ids(rows[..|rows| - 1]) + [rows[|rows| - 1].id];
      if i < |rows| - 1 then i
      else if rows[|rows| - 1].id == id then |rows| - 1
      else |rows|
  }

  function Lookup(rows: seq<Record>, id: string): Option<Record> {
    if Position(rows, id) < |rows| then Some(rows[Position(rows, id)]) else None
  }

  // dict[id] = r: an existing key keeps its place.
  function Put(rows: seq<Record>, r: Record): seq<Record> {
    var i := Position(rows, r.id);
    if i < |rows| then rows[i := r] else rows + [r]
  }

  function Drop(rows: seq<Record>, id: string): seq<Record> {
    Filter(NotId(id), rows)
  }

  // list.remove: the first occurrence goes.
  function RemoveFirst(s: seq<string>, x: string): seq<string> {
    if s == [] then []
    else
      var init, last := s[..|s| - 1], s[|s| - 1];
      if x in init then RemoveFirst(init, x) + [last]
      else if last == x then init
      else s
  }

  // MemoryStore._index
  function Indexed(s: State, r: Record): State {
    var key := r.namespace.AsKey();
    var ids := IndexAt(s.index, key);
    s.(rows := Put(s.rows, r), index := s.index[key := if r.id in ids then ids else ids + [r.id]])
  }

  // ----- Operations -----

  function Logged(s: State, e: Event): State {
    s.(events := s.events + [e])
  }

  function DoAdd(cfg: Config, s: State, m: Record, newId: string, at: string): Step {
    match Review(m, cfg)
    case Denied(reason) =>
      var e := Event(m.namespace, at, Rejected(reason));
      Step(Logged(s, e), [Emit(e)], Refusal(reason))
    case Accepted(reviewed) =>
      var r := reviewed.(id := newId, createdAt := at, updatedAt := at);
      var e := Event(r.namespace, at, Wrote(newId, r.title, r.status));
      Step(Logged(Indexed(s, r), e), [Persist(r), Emit(e)], Stored(r))
  }

  function DoUpdate(s: State, r: Record, e: Event): Step {
    Step(Logged(s.(rows := Put(s.rows, r)), e), [Update(r), Emit(e)], Stored(r))
  }

  function DoSetStatus(s: State, id: string, status: string, at: string): Step {
    if status !in MEMORY_STATUSES then Step(s, [], BadValue)
    else
      match Lookup(s.rows, id)
      case None => Step(s, [], NoSuchMemory)
      case Some(r) =>
        DoUpdate(s, r.(status := status, updatedAt := at),
                 Event(r.namespace, at, StatusChanged(id, r.status, status)))
  }

  function DoSetConfidence(s: State, id: string, confidence: real, at: string): Step {
    if !(0.0 <= confidence <= 1.0) then Step(s, [], BadValue)
    else
      match Lookup(s.rows, id)
      case None => Step(s, [], NoSuchMemory)
      case Some(r) =>
        DoUpdate(s, r.(confidence := confidence, updatedAt := at),
                 Event(r.namespace, at, ConfidenceChanged(id, r.confidence, confidence)))
  }

  function DoForget(s: State, id: string, at: string): Step {
    match Lookup(s.rows, id)
    case None => Step(s, [], Removed(false))
    case Some(r) =>
      var key := r.namespace.AsKey();
      var ids := IndexAt(s.index, key);
      var e := Event(r.namespace, at, Forgot(id));
      Step(Logged(s.(rows := Drop(s.rows, id),
                     index := if id in ids then s.index[key := RemoveFirst(ids, id)] else s.index), e),
           [Erase(id), Emit(e)], Removed(true))
  }

  // The rows whose ids are listed, in list order.
  function Fetch(rows: seq<Record>, ids: seq<string>): seq<Record> {
    if ids == [] then []
    else
      var r := Lookup(rows, ids[|ids| - 1]);
      Fetch(rows, ids[..|ids| - 1]) + if r.Some? then [r.value] else []
  }

  function ThreadRefuses(thread: Option<string>, mode: Option<string>): Record -> bool {
    (r: Record) => AdmitsThread(r.thread, thread, mode).Refused?
  }

  predicate StatusAllows(q: Request, r: Record) {
    q.statuses == None || r.status in q.statuses.value
  }

  predicate ExpiryAllows(q: Request, clock: string, r: Record) {
    || q.includeExpired
    || r.expiresAt == None
    || r.expiresAt.value == ""
    || Less(if q.now != "" then q.now else clock, r.expiresAt.value)
  }

  // The rows of one namespace that a request for a thread may see at all.
  function Visible(ns: Namespace, thread: Option<string>, mode: Option<string>): Record -> bool {
    (r: Record) => r.namespace == ns && AdmitsThread(r.thread, thread, mode) == Ok(true)
  }

  function Eligible(q: Request, clock: string): Record -> bool {
    (r: Record) => StatusAllows(q, r) && ExpiryAllows(q, clock, r)
  }

  predicate MatchesText(r: Record, needle: string) {
    || Contains(Lower(r.title), needle)
    || Contains(Lower(r.body), needle)
    || exists t :: t in r.tags && Contains(t, needle)
  }

  function Mentions(q: Request): Record -> bool {
    (r: Record) => q.text == "" || !q.bySubstring || MatchesText(r, Lower(q.text))
  }

  function RedactIfSecret(cfg: Config, text: string): string {
    if cfg.secret(text) then "[REDACTED_SECRET]" else text
  }

  // query goes through the index, checks each namespace again, and then narrows.
  function DoQuery(cfg: Config, s: State, q: Request, clock: string, at: string): Step {
    var inScope := Filter(InNamespace(q.namespace), Fetch(s.rows, IndexAt(s.index, q.namespace.AsKey())));
    match NormalizeThread(q.thread)
    case Refused => Step(s, [], BadThread)
    case Ok(requested) =>
      if exists r :: r in inScope && ThreadRefuses(requested, q.mode)(r) then Step(s, [], BadThread)
      else
        var seen := Filter(Visible(q.namespace, requested, q.mode), inScope);
        var eligible := Filter(Eligible(q, clock), seen);
        var e := Event(q.namespace, at, Recalled(RedactIfSecret(cfg, q.text), |eligible|, requested));
        Step(Logged(s, e), [Emit(e)], Matches(Filter(Mentions(q), eligible)))
  }

  function Do(cfg: Config, s: State, op: Op): Step {
    match op
    case Add(m, newId, at) => DoAdd(cfg, s, m, newId, at)
    case SetStatus(id, status, at) => DoSetStatus(s, id, status, at)
    case SetConfidence(id, confidence, at) => DoSetConfidence(s, id, confidence, at)
    case Forget(id, at) => DoForget(s, id, at)
    case Query(q, clock, at) => DoQuery(cfg, s, q, clock, at)
  }

  function Run(cfg: Config, s: State, ops: seq<Op>): State {
    if ops == [] then s else Do(cfg, Run(cfg, s, ops[..|ops| - 1]), ops[|ops| - 1]).state
  }

  function Actions(cfg: Config, s: State, ops: seq<Op>): seq<Action> {
    if ops == [] then []
    else
      var init := ops[..|ops| - 1];
      Actions(cfg, s, init) + Do(cfg, Run(cfg, s, init), ops[|ops| - 1]).actions
  }

  // ----- Legal runs: each added object is well-formed and each id is fresh -----

  function Drawn(ops: seq<Op>): set<string> {
    set op | op in ops && op.Add? :: op.newId
  }

  predicate FreshOp(op: Op, used: set<string>) {
    match op
    case Add(m, newId, _) => WellFormed(m) && newId != "" && newId !in used
    case Query(q, _, _) => q.namespace.Valid()
    case _ => true
  }

  // Memory and Namespace objects are well-formed by construction, and ids are drawn at random.
  predicate Legal(ops: seq<Op>) {
    ops == [] || (Legal(ops[..|ops| - 1]) && FreshOp(ops[|ops| - 1], Drawn(ops[..|ops| - 1])))
  }

  lemma LegalOneMore(ops: seq<Op>, op: Op)
    requires Legal(ops) && FreshOp(op, Drawn(ops))
    ensures Legal(ops + [op])
  {
    assert (ops + [op])[..|ops|] == ops;
  }

  lemma DrawnStep(ops: seq<Op>)
    requires ops != []
    ensures Drawn(ops) == Drawn(ops[..|ops| - 1]) +
                          if ops[|ops| - 1].Add? then {ops[|ops| - 1].newId} else {}
  {
    assert ops == ops[..|ops| - 1] + [ops[|ops| - 1]];
  }

  // ----- What every operation keeps -----

  ghost predicate RowsValid(rows: seq<Record>) {
    && NoDup(Ids(rows))
    && forall r :: r in rows ==> WellFormed(r) && r.id != ""
  }

  ghost predicate IndexValid(rows: seq<Record>, index: map<string, seq<string>>) {
    forall key :: IndexAt(index, key) == IdsUnder(rows, key)
  }

  ghost predicate Inv(s: State) {
    RowsValid(s.rows) && IndexValid(s.rows, s.index)
  }

  lemma IdMembers(rows: seq<Record>, r: Record)
    requires r in rows
    ensures r.id in Ids(rows)
  {
    var i :| 0 <= i < |rows| && rows[i] == r;
    assert Ids(rows)[i] == r.id;
  }

  lemma UniqueId(rows: seq<Record>, a: Record, b: Record)
    requires NoDup(Ids(rows)) && a in rows && b in rows && a.id == b.id
    ensures a == b
  {
    var i :| 0 <= i < |rows| && rows[i] == a;
    var j :| 0 <= j < |rows| && rows[j] == b;
    assert Ids(rows)[i] == Ids(rows)[j];
  }

  lemma FoundAt(rows: seq<Record>, i: nat)
    requires NoDup(Ids(rows)) && i < |rows|
    ensures Position(rows, rows[i].id) == i && Lookup(rows, rows[i].id) == Some(rows[i])
  {
    var ids, j := Ids(rows), Position(rows, rows[i].id);
    assert ids[i] == rows[i].id;
    assert ids[i] in ids;
    assert j < |rows| && ids[j] == rows[i].id;
    assert !(i < j) && !(j < i);
  }

  lemma IdsUnderAppend(rows: seq<Record>, r: Record, key: string)
    ensures Ids(rows + [r]) == Ids(rows) + [r.id]
    ensures IdsUnder(rows + [r], key) == IdsUnder(rows, key) + if r.namespace.AsKey() == key then [r.id] else []
  {
    assert (rows + [r])[..|rows|] == rows;
  }

  // Replacing a row by one of the same id and namespace moves nothing.
  lemma {:induction false} IdsUnderReplace(rows: seq<Record>, i: nat, r: Record, key: string)
    requires i < |rows| && r.id == rows[i].id && r.namespace == rows[i].namespace
    ensures Ids(rows[i := r]) == Ids(rows)
    ensures IdsUnder(rows[i := r], key) == IdsUnder(rows, key)
  {
    var n := |rows| - 1;
    var init := rows[..n];
    if i == n {
      assert rows[i := r][..n] == init;
    } else {
      IdsUnderReplace(init, i, r, key);
      assert rows[i := r][..n] == init[i := r];
    }
    assert rows == init + [rows[n]] && rows[i := r] == rows[i := r][..n] + [rows[i := r][n]];
    IdsUnderAppend(init, rows[n], key);
    IdsUnderAppend(rows[i := r][..n], rows[i := r][n], key);
  }

  lemma {:induction false} IdsDrop(rows: seq<Record>, id: string)
    ensures Ids(Drop(rows, id)) == Filter(Differs(id), Ids(rows))
  {
    if rows != [] {
      var init, last := rows[..|rows| - 1], rows[|rows| - 1];
      IdsDrop(init, id);
      assert rows == init + [last];
      assert Ids(rows)[..|rows| - 1] == Ids(init);
    }
  }

  lemma {:induction false} RemoveFirstIsFilter(s: seq<string>, x: string)
    requires NoDup(s)
    ensures RemoveFirst(s, x) == Filter(Differs(x), s)
  {
    if s != [] {
      var init, last := s[..|s| - 1], s[|s| - 1];
      RemoveFirstIsFilter(init, x);
      if x !in init {
        FilterAll(Differs(x), init);
      }
    }
  }

  lemma IdsUnderDrop(rows: seq<Record>, id: string, key: string)
    ensures IdsUnder(Drop(rows, id), key) == Filter(Differs(id), IdsUnder(rows, key))
  {
    var both := (r: Record) => r.namespace.AsKey() == key && r.id != id;
    FilterFilter(HasKey(key), NotId(id), both, rows);
    FilterFilter(NotId(id), HasKey(key), both, rows);
    IdsDrop(Filter(HasKey(key), rows), id);
  }

  lemma {:induction false} IdsUnderNoDup(rows: seq<Record>, key: string)
    requires NoDup(Ids(rows))
    ensures NoDup(IdsUnder(rows, key))
    ensures forall id :: id in IdsUnder(rows, key) ==> id in Ids(rows)
  {
    if rows != [] {
      var init, last := rows[..|rows| - 1], rows[|rows| - 1];
      assert rows == init + [last];
      IdsUnderAppend(init, last, key);
      assert forall i :: 0 <= i < |init| ==> Ids(rows)[i] == Ids(init)[i];
      IdsUnderNoDup(init, key);
      assert last.id !in Ids(init);
    }
  }

  lemma AppendKeepsRowsValid(rows: seq<Record>, r: Record)
    requires RowsValid(rows) && WellFormed(r) && r.id != "" && r.id !in Ids(rows)
    ensures RowsValid(rows + [r])
  {
    IdsUnderAppend(rows, r, "");
    var ids := Ids(rows);
    forall i, j | 0 <= i < j < |ids + [r.id]| ensures (ids + [r.id])[i] != (ids + [r.id])[j] {
      assert (ids + [r.id])[i] in ids;
    }
  }

  // Storing a record under a new id extends exactly its own index entry.
  lemma IndexedKeepsInv(s: State, r: Record)
    requires Inv(s) && WellFormed(r) && r.id != "" && r.id !in Ids(s.rows)
    ensures Inv(Indexed(s, r)) && Indexed(s, r).rows == s.rows + [r]
  {
    var t := Indexed(s, r);
    AppendKeepsRowsValid(s.rows, r);
    IdsUnderNoDup(s.rows, r.namespace.AsKey());
    assert r.id !in IndexAt(s.index, r.namespace.AsKey());
    forall key ensures IndexAt(t.index, key) == IdsUnder(s.rows + [r], key) {
      IdsUnderAppend(s.rows, r, key);
    }
  }

  lemma UpdateKeepsInv(s: State, i: nat, r: Record)
    requires Inv(s) && i < |s.rows| && r.id == s.rows[i].id && r.namespace == s.rows[i].namespace && WellFormed(r)
    ensures Put(s.rows, r) == s.rows[i := r]
    ensures Inv(s.(rows := Put(s.rows, r)))
  {
    FoundAt(s.rows, i);
    forall key ensures IndexAt(s.index, key) == IdsUnder(s.rows[i := r], key) {
      IdsUnderReplace(s.rows, i, r, key);
    }
    IdsUnderReplace(s.rows, i, r, "");
    IdMembers(s.rows, s.rows[i]);
    forall x | x in s.rows[i := r] ensures WellFormed(x) && x.id != "" {
      assert x == r || x in s.rows;
    }
  }

  lemma ForgetKeepsInv(s: State, id: string, at: string)
    requires Inv(s)
    ensures Inv(DoForget(s, id, at).state)
  {
    var found := Lookup(s.rows, id);
    if found.Some? {
      var t := DoForget(s, id, at).state;
      forall key ensures IndexAt(t.index, key) == IdsUnder(t.rows, key) {
        IdsUnderDrop(s.rows, id, key);
        IdsUnderNoDup(s.rows, key);
        RemoveFirstIsFilter(IdsUnder(s.rows, key), id);
        if key != found.value.namespace.AsKey() || id !in IdsUnder(s.rows, key) {
          OtherKeysLack(s.rows, found.value, key);
          FilterAll(Differs(id), IdsUnder(s.rows, key));
        }
      }
      IdsDrop(s.rows, id);
      FilterNoDup(Differs(id), Ids(s.rows));
    }
  }

  lemma OtherKeysLack(rows: seq<Record>, r: Record, key: string)
    requires NoDup(Ids(rows)) && r in rows
    ensures r.id in IdsUnder(rows, key) <==> r.namespace.AsKey() == key
  {
    var sub := Filter(HasKey(key), rows);
    if r.namespace.AsKey() == key {
      IdMembers(sub, r);
    }
    if r.id in Ids(sub) {
      var i :| 0 <= i < |Ids(sub)| && Ids(sub)[i] == r.id;
      assert sub[i] in sub;
      UniqueId(rows, sub[i], r);
    }
  }

  // Every operation on fresh input keeps the rows valid and the index equal to a scan of them.
  lemma DoKeepsInv(cfg: Config, s: State, op: Op)
    requires Lawful(cfg) && Inv(s) && FreshOp(op, set id | id in Ids(s.rows))
    ensures Inv(Do(cfg, s, op).state)
  {
    match op
    case Add(m, newId, at) =>
      if Review(m, cfg).Accepted? {
        ReviewKeepsForm(m, cfg);
        var v := Review(m, cfg).record;
        WellFormedUpdates(v, newId, at, at, v.status, v.confidence);
        IndexedKeepsInv(s, v.(id := newId, createdAt := at, updatedAt := at));
      }
    case SetStatus(id, status, at) =>
      if status in MEMORY_STATUSES && Lookup(s.rows, id).Some? {
        var r := Lookup(s.rows, id).value;
        WellFormedUpdates(r, r.id, r.createdAt, at, status, r.confidence);
        UpdateKeepsInv(s, Position(s.rows, id), r.(status := status, updatedAt := at));
      }
    case SetConfidence(id, confidence, at) =>
      if 0.0 <= confidence <= 1.0 && Lookup(s.rows, id).Some? {
        var r := Lookup(s.rows, id).value;
        WellFormedUpdates(r, r.id, r.createdAt, at, r.status, confidence);
        UpdateKeepsInv(s, Position(s.rows, id), r.(confidence := confidence, updatedAt := at));
      }
    case Forget(id, at) => ForgetKeepsInv(s, id, at);
    case Query(_, _, _) =>
  }
}
