/**
 One HTTP request as one database transaction (lib/pgtx).

 The server side is a value, `Tx`: what the open transaction has done so far, the stack of its
 savepoints and PostgreSQL's "current transaction is aborted" flag. The Go side is the classes
 `Database`, `Request` and `Runner`, whose methods step through it as `Do` and `doDaemon` do.
 Every statement has its own reply in a script, so a contract that holds for every script holds
 for every pattern of statement failures.
 */
module Transaction {
  import opened Options

  // ---------------------------------------------------------------- the server

  datatype Write = Write(target: string, value: string)

  /** A db.api_log row. A row that only daemon.begin wrote has no status yet. */
  datatype Row = Row(status: Option<int>, code: Option<string>, session: Option<string>)

  /** What a transaction would commit, and the session context it runs under. */
  datatype Work = Work(writes: seq<Write>, rows: map<nat, Row>, session: Option<string>)

  const NOTHING := Work([], map[], None)

  datatype Tx = Tx(work: Work, marks: seq<Work>, aborted: bool)

  const FRESH := Tx(NOTHING, [], false)

  /** Why a call failed, as lib/pgtx tells causes apart: a problem already made, an error the
      database raised (`refusal` is what its text says when it reads ERR-GGG-CCC), or anything else. */
  datatype Cause =
    | Made(problem: Problem)
    | Raised(sqlstate: string, refusal: Option<Problem>)
    | Broken

  datatype Problem = Problem(status: int, code: Option<string>)

  /** The reply to one statement. `Unread`: the server ran it, the client could not read the answer.
      `Spoiled`: the client read the answer and met an error after it, as pgx's Scan reports one. */
  datatype Reply = Done | Failed(cause: Cause) | Unread(cause: Cause) | Spoiled(cause: Cause)

  /** SQLSTATE 25P02, the answer of an aborted transaction to every statement but a rollback. */
  const IN_FAILED_TRANSACTION := Raised("25P02", None)

  /** The client's view of a statement sent while the transaction may be aborted. */
  function Seen(t: Tx, reply: Reply): Reply {
    if t.aborted then Failed(IN_FAILED_TRANSACTION) else reply
  }

  /** The transaction after a statement whose success would lead to `done`. */
  function After(t: Tx, reply: Reply, done: Tx): Tx {
    match Seen(t, reply)
    case Failed(_) => t.(aborted := true)
    case _ => done
  }

  function Marked(t: Tx): Tx {
    t.(marks := t.marks + [t.work])
  }

  /** ROLLBACK TO SAVEPOINT: allowed in an aborted transaction, and the savepoint is kept. */
  function RolledBackTo(t: Tx, k: nat): Tx
    requires k < |t.marks|
  {
    Tx(t.marks[k], t.marks[..k + 1], false)
  }

  // --------------------------------------------------------------- the handler

  /** What a handler's trace is made of. Savepoints are counted from the handler's own first one:
      it may roll back to any of them and never reaches below. */
  datatype Op =
    | Exec(write: Write)
    | Refused
    | SetContext(session: string)
    | Nest
    | Undo(k: nat)
    | Release(k: nat)

  /** A handler: its statements, the status it sets (0: none) and what it returns. A handler that
      swallows a failed statement is one whose trace holds `Refused` and whose result is nil. */
  datatype Handler = Handler(ops: seq<Op>, status: int, result: Option<Cause>)

  function Apply(t: Tx, base: nat, op: Op): Tx {
    match op
    case Exec(w) => if t.aborted then t else t.(work := t.work.(writes := t.work.writes + [w]))
    case Refused => t.(aborted := true)
    case SetContext(s) => if t.aborted then t else t.(work := t.work.(session := Some(s)))
    case Nest => if t.aborted then t else Marked(t)
    case Undo(k) => if base + k < |t.marks| then RolledBackTo(t, base + k) else t.(aborted := true)
    case Release(k) =>
      if t.aborted then t
      else if base + k < |t.marks| then t.(marks := t.marks[..base + k])
      else t.(aborted := true)
  }

  function Ran(t: Tx, base: nat, ops: seq<Op>): Tx
    decreases |ops|
  {
    if ops == [] then t else Ran(Apply(t, base, ops[0]), base, ops[1..])
  }

  /** The handler's effects: what it leaves behind in a transaction of its own. */
  function Effects(h: Handler): seq<Write> {
    Ran(FRESH, 0, h.ops).work.writes
  }

  /** The handler leaves the transaction aborted and still returns nil. */
  predicate Swallows(h: Handler) {
    h.result.None? && Ran(FRESH, 0, h.ops).aborted
  }

  /** `u` is `t` inside a road: the same writes and flag, `pre` savepoints below, and the same
      journal rows everywhere above them. */
  ghost predicate Within(t: Tx, u: Tx, pre: seq<Work>, rows: map<nat, Row>) {
    && t.aborted == u.aborted
    && t.work.writes == u.work.writes && u.work.rows == rows
    && |u.marks| == |pre| + |t.marks| && u.marks[..|pre|] == pre
    && SameMarks(t.marks, u.marks[|pre|..], rows)
  }

  ghost predicate SameMarks(a: seq<Work>, b: seq<Work>, rows: map<nat, Row>) {
    && |a| == |b|
    && forall i :: 0 <= i < |a| ==> a[i].writes == b[i].writes && b[i].rows == rows
  }

  lemma ApplyWithin(t: Tx, u: Tx, pre: seq<Work>, rows: map<nat, Row>, op: Op)
    requires Within(t, u, pre, rows)
    ensures Within(Apply(t, 0, op), Apply(u, |pre|, op), pre, rows)
  {
    var t', u' := Apply(t, 0, op), Apply(u, |pre|, op);
    var n, top := |pre|, u.marks[|pre|..];
    match op
    case Nest =>
      if !t.aborted {
        assert u'.marks[..n] == u.marks[..n] && u'.marks[n..] == top + [u.work];
      }
    case Undo(k) =>
      if k < |t.marks| {
        assert u'.marks[..n] == u.marks[..n] && u'.marks[n..] == top[..k + 1];
        assert t.marks[k].writes == top[k].writes;
      }
    case Release(k) =>
      if !t.aborted && k < |t.marks| {
        assert u'.marks[..n] == u.marks[..n] && u'.marks[n..] == top[..k];
      }
    case _ =>
  }

  /** A handler cannot tell the roads apart: below whatever savepoints and beside whatever journal
      row it runs, it leaves the same effects and the same abort flag, never touches the rows and
      leaves every savepoint under it in place. */
  lemma {:induction false} HandlerWithin(t: Tx, u: Tx, pre: seq<Work>, rows: map<nat, Row>, ops: seq<Op>)
    requires Within(t, u, pre, rows)
    ensures Within(Ran(t, 0, ops), Ran(u, |pre|, ops), pre, rows)
    decreases |ops|
  {
    if ops != [] {
      ApplyWithin(t, u, pre, rows, ops[0]);
      HandlerWithin(Apply(t, 0, ops[0]), Apply(u, |pre|, ops[0]), pre, rows, ops[1..]);
    }
  }

  /** The handler in a road: over `work`, under the savepoint `request` when there is one. */
  lemma HandlerOnRoad(work: Work, marked: bool, h: Handler)
    requires work.writes == []
    ensures
      var pre := if marked then [work] else [];
      var u := Ran(Tx(work, pre, false), |pre|, h.ops);
      && u.work.writes == Effects(h) && u.work.rows == work.rows
      && u.aborted == Ran(FRESH, 0, h.ops).aborted
      && (marked ==> |u.marks| > 0 && u.marks[0] == work)
  {
    var pre := if marked then [work] else [];
    HandlerWithin(FRESH, Tx(work, pre, false), pre, work.rows, h.ops);
    var u := Ran(Tx(work, pre, false), |pre|, h.ops);
    assert marked ==> u.marks[0] == u.marks[..|pre|][0];
  }

  function Written(ops: seq<Op>): seq<Write> {
    if ops == [] then []
    else (if ops[0].Exec? then [ops[0].write] else []) + Written(ops[1..])
  }

  lemma {:induction false} CleanRan(t: Tx, base: nat, ops: seq<Op>)
    requires !t.aborted
    requires forall op :: op in ops ==> op.Exec? || op.SetContext? || op.Nest?
    ensures !Ran(t, base, ops).aborted
    ensures Ran(t, base, ops).work.writes == t.work.writes + Written(ops)
    decreases |ops|
  {
    if ops != [] {
      var t' := Apply(t, base, ops[0]);
      var first := if ops[0].Exec? then [ops[0].write] else [];
      assert ops[0] in ops;
      assert t'.work.writes == t.work.writes + first && !t'.aborted;
      CleanRan(t', base, ops[1..]);
      assert (t.work.writes + first) + Written(ops[1..]) == t.work.writes + (first + Written(ops[1..]));
    }
  }

  /** A handler that undoes nothing and meets no failure leaves every one of its writes, in order. */
  lemma CleanHandlerKeepsEverything(h: Handler)
    requires forall op :: op in h.ops ==> op.Exec? || op.SetContext? || op.Nest?
    ensures Effects(h) == Written(h.ops) && !Swallows(h)
  {
    CleanRan(FRESH, 0, h.ops);
  }

  /** The handler the direct road leaves no audit row for, in its smallest form. */
  lemma SwallowingHandler(w: Write)
    ensures Swallows(Handler([Exec(w), Refused], 0, None))
    ensures !Swallows(Handler([Exec(w), Refused], 0, Some(Broken)))
  {
    var t := Apply(FRESH, 0, Exec(w));
    assert Ran(FRESH, 0, [Exec(w), Refused]) == Ran(t, 0, [Refused]) by {
      assert [Exec(w), Refused][1..] == [Refused];
    }
  }

  lemma {:induction false} RanPrefix(t: Tx, base: nat, a: seq<Op>, b: seq<Op>)
    ensures Ran(t, base, a + b) == Ran(Ran(t, base, a), base, b)
    decreases |a|
  {
    if a == [] {
      assert a + b == b;
    } else {
      assert (a + b)[1..] == a[1..] + b;
      RanPrefix(Apply(t, base, a[0]), base, a[1..], b);
    }
  }

  lemma {:induction false} AbortedStays(t: Tx, base: nat, ops: seq<Op>)
    requires t.aborted
    requires forall op :: op in ops ==> !op.Undo?
    ensures Ran(t, base, ops) == t
    decreases |ops|
  {
    if ops != [] {
      AbortedStays(Apply(t, base, ops[0]), base, ops[1..]);
    }
  }

  /** A failed statement that no later rollback to a savepoint undoes leaves the transaction
      aborted, whatever the handler goes on to send. */
  lemma UnansweredFailureAborts(h: Handler, i: nat)
    requires i < |h.ops| && h.ops[i].Refused?
    requires forall j :: i < j < |h.ops| ==> !h.ops[j].Undo?
    ensures Ran(FRESH, 0, h.ops).aborted
  {
    var a, b := h.ops[..i + 1], h.ops[i + 1..];
    assert a + b == h.ops;
    RanPrefix(FRESH, 0, a, b);
    assert a == h.ops[..i] + [Refused];
    RanPrefix(FRESH, 0, h.ops[..i], [Refused]);
    assert Ran(FRESH, 0, a).aborted;
    AbortedStays(Ran(FRESH, 0, a), 0, b);
  }

  /** The statements of a block that leave the savepoint m below it in place. */
  predicate Keeps(ops: seq<Op>, m: nat) {
    forall op :: op in ops ==> (op.Undo? ==> op.k >= m) && (op.Release? ==> op.k > m)
  }

  lemma {:induction false} MarkStays(t: Tx, ops: seq<Op>, m: nat)
    requires m < |t.marks| && Keeps(ops, m)
    ensures m < |Ran(t, 0, ops).marks| && Ran(t, 0, ops).marks[..m + 1] == t.marks[..m + 1]
    decreases |ops|
  {
    if ops != [] {
      assert ops[0] in ops;
      var t' := Apply(t, 0, ops[0]);
      assert m < |t'.marks| && t'.marks[..m + 1] == t.marks[..m + 1];
      MarkStays(t', ops[1..], m);
    }
  }

  /** A savepoint undoes its block: whatever the block wrote, and whether or not a statement of it failed,
      after the rollback the transaction is as it was when the savepoint was set, and can go on. */
  lemma SavepointUndoes(t: Tx, block: seq<Op>)
    requires !t.aborted && Keeps(block, |t.marks|)
    ensures
      var u := Ran(t, 0, [Nest] + (block + [Undo(|t.marks|)]));
      u.work == t.work && !u.aborted && u.marks == t.marks + [t.work]
  {
    var m, nested := |t.marks|, Marked(t);
    assert ([Nest] + (block + [Undo(m)]))[1..] == block + [Undo(m)];
    RanPrefix(nested, 0, block, [Undo(m)]);
    MarkStays(nested, block, m);
    var after := Ran(nested, 0, block);
    assert [Undo(m)][1..] == [];
    assert after.marks[m] == after.marks[..m + 1][m] == t.work;
    assert after.marks[..m + 1] == nested.marks == t.marks + [t.work];
  }

  /** Releasing it keeps what the block did. */
  lemma SavepointReleases(t: Tx, block: seq<Op>)
    requires !t.aborted && Keeps(block, |t.marks|) && !Ran(Marked(t), 0, block).aborted
    ensures
      var u := Ran(t, 0, [Nest] + (block + [Release(|t.marks|)]));
      u.work == Ran(Marked(t), 0, block).work && !u.aborted && u.marks == t.marks
  {
    var m, nested := |t.marks|, Marked(t);
    assert ([Nest] + (block + [Release(m)]))[1..] == block + [Release(m)];
    RanPrefix(nested, 0, block, [Release(m)]);
    MarkStays(nested, block, m);
    var after := Ran(nested, 0, block);
    assert [Release(m)][1..] == [];
    assert after.marks[..m] == after.marks[..m + 1][..m] == t.marks;
  }

  // ---------------------------------------------------- what a failure is called

  const INTERNAL := Problem(500, None)

  /** The problem a failure names by itself: one already made, or the database's own with a catalogue code. */
  function Named(cause: Cause): Option<Problem> {
    match cause
    case Made(p) => Some(p)
    case Raised("P0001", refusal) => refusal
    case _ => None
  }

  /** A unique key taken, or on DELETE a row still referenced. */
  predicate IsConflict(cause: Cause, verb: Option<string>) {
    cause.Raised? && (cause.sqlstate == "23505" || (cause.sqlstate == "23503" && verb == Some("DELETE")))
  }

  /** A refusal without a catalogue code, a constraint (class 23), or data that does not read (class 22). */
  predicate IsClients(cause: Cause) {
    cause.Raised? && (cause.sqlstate == "P0001" || "22" <= cause.sqlstate || "23" <= cause.sqlstate)
  }

  /** What the client is told of a failure: the problem it names; else 409 exactly for a conflict, 400
      exactly for what else is the client's, and 500 for the rest, without a code. */
  ghost predicate Fits(p: Problem, cause: Cause, verb: Option<string>) {
    if Named(cause).Some? then p == Named(cause).value
    else
      && p.code == None
      && (p.status == 409 <==> IsConflict(cause, verb))
      && (p.status == 400 <==> IsClients(cause) && !IsConflict(cause, verb))
      && (p.status == 500 <==> !IsClients(cause))
  }

  /** `explain`: the problem a failure becomes. A foreign key held by others is a conflict on DELETE. */
  function Explain(cause: Cause, verb: Option<string>): (p: Problem)
    ensures Fits(p, cause, verb)
  {
    match cause
    case Made(p) => p
    case Broken => INTERNAL
    case Raised(state, refusal) =>
      if state == "P0001" then
        if refusal.Some? then refusal.value else Problem(400, None)
      else if "23" <= state then
        if state == "23505" || (state == "23503" && verb == Some("DELETE")) then Problem(409, None)
        else Problem(400, None)
      else if "22" <= state then Problem(400, None)
      else INTERNAL
  }

  lemma AbortedIsInternal(verb: Option<string>)
    ensures Explain(IN_FAILED_TRANSACTION, verb) == INTERNAL
  {
    assert "25P02"[1] == '5' && "23"[1] == '3' && "22"[1] == '2';
    assert !("23" <= "25P02") && !("22" <= "25P02");
  }

  /** `refusal`: the problem for what daemon.begin refused. */
  function BeginRefusal(status: Option<int>, code: Option<string>): (p: Problem)
    ensures p.status == 401 <==> status == Some(401)
    ensures code.Some? && code.value != "" ==> p.code == code && p.status == (if status.Some? then status.value else 500)
    ensures code.None? || code.value == "" ==> p == if status == Some(401) then Problem(401, Some("ERR-401-001")) else Problem(500, None)
  {
    var st := if status.Some? then status.value else 500;
    var c := if code.Some? then code.value else "";
    if st == 401 then Problem(401, Some(if c == "" then "ERR-401-001" else c))
    else if c != "" then Problem(st, Some(c))
    else INTERNAL
  }

  /** The row of a refusal by daemon.begin says what the client is told exactly when the database
      gave a status, and with it a code unless the status is 401 or 500. */
  lemma BeginRefusalTold(status: Option<int>, code: Option<string>)
    ensures status == Some(BeginRefusal(status, code).status) <==>
      status.Some? && (status.value == 401 || status.value == 500 || (code.Some? && code.value != ""))
  {
  }

  // ------------------------------------------------------------------ the scripts

  datatype AuthReply = AuthFailed(cause: Cause) | Verdict(authorized: bool)

  /** Replies to the statements of the direct road, one field a statement of `Do`. */
  datatype DirectScript = DirectScript(
    begin: bool, auth: AuthReply, freshBegin: bool, savepoint: Reply, rollbackTo: Reply, log: Reply,
    commit: Option<Cause>)

  datatype BeginReply = BeginFailed | BeginRefused(status: Option<int>, code: Option<string>) | Admitted

  /** daemon.end: it fails, or answers with the row's id, or with NULL (whether or not it completed the row). */
  datatype EndReply = EndFailed(unread: bool) | EndSilent(completed: bool) | EndReported

  datatype DaemonScript = DaemonScript(
    begin: bool, daemonBegin: BeginReply, savepoint: Reply, rollbackTo: Reply, end: EndReply,
    commit: Option<Cause>, salvageTo: Reply, salvageCommit: Option<Cause>)

  datatype Features = Features(logRequest: bool, logRequestErr: bool, daemon: bool)

  // ------------------------------------------------------------------ the objects

  class Database {
    var data: seq<Write>
    var journal: map<nat, Row>
    /** The last id the log's sequence gave out; a sequence does not roll back. */
    var lastId: nat

    constructor ()
      ensures data == [] && journal == map[] && Valid()
    {
      data, journal, lastId := [], map[], 0;
    }

    ghost predicate Valid()
      reads this
    {
      forall id :: id in journal ==> 0 < id <= lastId
    }

    method NextId() returns (id: nat)
      modifies this`lastId
      ensures id == old(lastId) + 1 == lastId
    {
      lastId := lastId + 1;
      id := lastId;
    }

    /** COMMIT. An aborted transaction is rolled back and reported; an error means nothing was committed. */
    method Commit(t: Tx, fault: Option<Cause>) returns (err: Option<Cause>)
      modifies this`data, this`journal
      ensures err == if t.aborted then Some(Broken) else fault
      ensures err.None? ==> data == old(data) + t.work.writes && journal == old(journal) + t.work.rows
      ensures err.Some? ==> data == old(data) && journal == old(journal)
    {
      if t.aborted {
        return Some(Broken);
      }
      if fault.Some? {
        return fault;
      }
      data, journal := data + t.work.writes, journal + t.work.rows;
      err := None;
    }
  }

  class Request {
    const verb: string
    var status: int
    var logId: nat

    constructor (verb: string, status: int, logId: nat)
      ensures this.verb == verb && this.status == status && this.logId == logId
    {
      this.verb, this.status, this.logId := verb, status, logId;
    }

    function Status(): int
      reads this
    {
      if status == 0 then 200 else status
    }
  }

  /** The journal a call of Do commits: at most one row, under a fresh id. */
  ghost predicate Added(before: map<nat, Row>, rows: map<nat, Row>) {
    |rows| <= 1 && rows.Keys !! before.Keys
  }

  /** And the id it reports, for the outcome the client sees: a reported id is that row, with the client's status. */
  ghost predicate Truthful(rows: map<nat, Row>, logId: nat, answer: int) {
    logId != 0 ==> logId in rows && rows[logId].status == Some(answer)
  }

  /** On the direct road an id is reported exactly when a row is kept, and is that row with the client's
      status, if and only if it is not a stray one, which has no row. */
  ghost predicate Sincere(rows: map<nat, Row>, logId: nat, answer: int, stray: bool) {
    && (Truthful(rows, logId, answer) <==> !stray)
    && ((logId != 0 <==> rows != map[]) <==> !stray)
    && (stray ==> rows == map[])
  }

  lemma StrayIsInsincere(logId: nat, answer: int)
    requires logId != 0
    ensures Sincere(map[], logId, answer, true)
  {
  }

  lemma KeptIsSincere(rows: map<nat, Row>, logId: nat, answer: int)
    requires if logId == 0 then rows == map[] else logId in rows && rows[logId].status == Some(answer)
    ensures Sincere(rows, logId, answer, false)
  {
  }

  /** An id, if there is one, is from the sequence and new. */
  predicate FreshId(id: nat, before: nat, after: nat) { before <= after && (id != 0 ==> before < id <= after) }

  /** The one abstract step both roads refine: nil means the handler ran once, in an admitted
      request, without leaving the transaction aborted, and exactly its effects were added;
      anything else adds nothing. */
  ghost predicate Atomic(before: seq<Write>, after: seq<Write>, h: Handler, err: Option<Problem>, admitted: bool, ran: nat) {
    && (err.None? ==> admitted && ran == 1 && h.result.None? && !Swallows(h) && after == before + Effects(h))
    && (err.Some? ==> after == before)
    && (ran > 0 ==> admitted)
    && ran <= 1
  }

  function Answer(err: Option<Problem>, status: int): int {
    if err.None? then status else err.value.status
  }

  lemma OneRow(id: nat, row: Row)
    ensures |map[id := row]| == 1 && map[id := row].Keys == {id}
  {
    assert map[id := row].Keys == {id};
  }

  lemma AtMostOne(id: nat, rows: map<nat, Row>)
    requires rows.Keys <= {id}
    ensures |rows| == if id in rows then 1 else 0
  {
    assert rows.Keys == if id in rows then {id} else {};
  }

  /** Every statement but authorisation and the handler's own succeeds. */
  predicate OnlyClientFailures(f: DirectScript) {
    f.begin && f.freshBegin && f.savepoint.Done? && f.rollbackTo.Done? && f.log.Done? && f.commit.None?
  }

  /** Every statement but daemon.begin's verdict, the handler's own and daemon.end succeeds. */
  predicate OnlyDaemonFailures(f: DaemonScript) {
    && f.begin && !f.daemonBegin.BeginFailed? && f.savepoint.Done? && f.rollbackTo.Done? && f.commit.None?
    && f.salvageTo.Done? && f.salvageCommit.None?
  }

  /** All a nil answer of the direct road takes. */
  predicate DirectSucceeds(f: DirectScript, h: Handler, journal: bool) {
    && f.begin && f.auth == Verdict(true) && h.result.None? && !Swallows(h) && f.commit.None?
    && (journal ==> f.savepoint.Done? && f.log.Done?)
  }

  /** The direct road reports an id it has not kept: the row's id was read and an error met after it, at
      the end of a handler that succeeded. */
  predicate Stray(f: DirectScript, h: Handler, journal: bool) {
    && journal && f.begin && f.auth == Verdict(true) && f.savepoint.Done? && h.result.None? && !Swallows(h)
    && f.log.Spoiled?
  }

  /** All a nil answer of the daemon road takes. */
  predicate DaemonSucceeds(f: DaemonScript, h: Handler) {
    && f.begin && f.daemonBegin.Admitted? && f.savepoint.Done? && h.result.None? && !Swallows(h)
    && !f.end.EndFailed? && f.commit.None?
  }

  /** A refused handler's own failure is what the client is told. */
  ghost predicate ToldWhy(err: Option<Problem>, h: Handler, verb: Option<string>, ran: nat) {
    ran == 1 && h.result.Some? ==> err.Some? && Fits(err.value, h.result.value, verb)
  }

  /** And when the handler succeeded, the failure that ended the request: on the direct road of the row's
      statement or of COMMIT, which an aborted transaction refuses. */
  ghost predicate ToldEnd(err: Option<Problem>, aborted: bool, f: DirectScript, journal: bool, verb: Option<string>) {
    err.Some? ==>
      if aborted then err.value == Problem(500, None)
      else if journal && f.log != Done then Fits(err.value, f.log.cause, verb)
      else f.commit.Some? && Fits(err.value, f.commit.value, verb)
  }

  /** On the daemon road of daemon.end, which is no client's fault, or of COMMIT. */
  ghost predicate ToldClose(err: Option<Problem>, h: Handler, f: DaemonScript, verb: Option<string>, ran: nat) {
    ran == 1 && h.result.None? && err.Some? ==>
      if Swallows(h) || f.end.EndFailed? then err.value == Problem(500, None)
      else f.commit.Some? && Fits(err.value, f.commit.value, verb)
  }

  /** The database reads a catalogue code in a text it did not raise as a refusal. */
  predicate StrayCode(cause: Cause) {
    cause.Raised? && cause.sqlstate != "P0001" && cause.refusal.Some? && cause.refusal.value.code.Some?
  }

  /** The code a completed row carries: none for success; for a refusal what the client is told, unless it
      is a stray one. */
  ghost predicate CodeFits(code: Option<string>, h: Handler, err: Option<Problem>) {
    && (h.result.None? ==> code == None)
    && (h.result.Some? ==>
          && err.Some? && (code == err.value.code <==> !StrayCode(h.result.value))
          && (StrayCode(h.result.value) ==> code == h.result.value.refusal.value.code))
  }

  /** All it takes for the daemon road to report the row. */
  predicate DaemonReports(f: DaemonScript, h: Handler) {
    && f.begin && f.daemonBegin.Admitted? && f.savepoint.Done? && f.end.EndReported? && f.commit.None?
    && if h.result.Some? then f.rollbackTo.Done? else !Swallows(h)
  }

  function Verb(req: Request?): Option<string> { if req == null then None else Some(req.verb) }

  /** What ends a request whose handler succeeded: the row's statement, or COMMIT. */
  function FinishFault(aborted: bool, journal: bool, f: DirectScript): Cause {
    if aborted then (if journal then IN_FAILED_TRANSACTION else Broken)
    else if journal && f.log != Done then f.log.cause
    else if f.commit.Some? then f.commit.value
    else Broken
  }

  class Runner {
    const db: Database
    const features: Features

    constructor (db: Database, features: Features)
      ensures this.db == db && this.features == features
    {
      this.db, this.features := db, features;
    }

    /** logRequest: writes the row into the open transaction and scans its id into the request. */
    method LogRequest(t: Tx, req: Request, status: int, code: Option<string>, reply: Reply)
      returns (t': Tx, err: Option<Cause>)
      requires db.Valid()
      modifies db`lastId, req`logId
      ensures db.Valid() && db.lastId == old(db.lastId) + 1
      ensures err == if t.aborted then Some(IN_FAILED_TRANSACTION) else if reply.Done? then None else Some(reply.cause)
      ensures err.None? ==>
        && req.logId == db.lastId && !t'.aborted
        && t' == t.(work := t.work.(rows := t.work.rows[req.logId :=
             Row(Some(status), if features.logRequestErr then code else None, t.work.session)]))
      ensures err.Some? ==> req.logId == if Seen(t, reply).Spoiled? then db.lastId else old(req.logId)
    {
      var id := db.NextId();
      var row := Row(Some(status), if features.logRequestErr then code else None, t.work.session);
      t' := After(t, reply, t.(work := t.work.(rows := t.work.rows[id := row])));
      match Seen(t, reply)
      case Done =>
        req.logId := id;
        err := None;
      case Failed(c) => err := Some(c);
      case Unread(c) => err := Some(c);
      case Spoiled(c) =>
        req.logId := id;
        err := Some(c);
    }

    /** journalRefusal: the audit row of a refusal, committed alone; what cannot be written is not reported. */
    method JournalRefusal(t: Tx, req: Request, p: Problem, f: DirectScript) returns (ghost rows: map<nat, Row>)
      requires db.Valid() && req.logId == 0 && t.work.writes == [] && t.work.rows == map[]
      modifies db, req`logId
      ensures db.Valid() && db.data == old(db.data) && db.journal == old(db.journal) + rows
      ensures Added(old(db.journal), rows) && Truthful(rows, req.logId, p.status) && FreshId(req.logId, old(db.lastId), db.lastId)
      ensures rows == (if req.logId == 0 then map[] else
                map[req.logId := Row(Some(p.status), if features.logRequestErr then p.code else None, t.work.session)])
      ensures !t.aborted && f.log.Done? && f.commit.None? <==> req.logId != 0
    {
      var t', err := LogRequest(t, req, p.status, p.code, f.log);
      if err.None? {
        var cerr := db.Commit(t', f.commit);
        err := cerr;
      }
      rows := map[];
      if err.Some? {
        req.logId := 0;
      } else {
        rows := t'.work.rows;
        OneRow(req.logId, t'.work.rows[req.logId]);
      }
    }

    /** fn: the handler's statements, the status it sets on the request, and its result. */
    method Handle(t: Tx, base: nat, req: Request?, h: Handler) returns (t': Tx, result: Option<Cause>)
      modifies req
      ensures t' == Ran(t, base, h.ops) && result == h.result
      ensures req != null ==> req.logId == old(req.logId) && req.status == (if h.status != 0 then h.status else old(req.status))
    {
      t' := t;
      var i := 0;
      while i < |h.ops|
        invariant 0 <= i <= |h.ops|
        invariant Ran(t', base, h.ops[i..]) == Ran(t, base, h.ops)
      {
        assert h.ops[i..][1..] == h.ops[i + 1..];
        t' := Apply(t', base, h.ops[i]);
        i := i + 1;
      }
      if req != null && h.status != 0 {
        req.status := h.status;
      }
      result := h.result;
    }

    /** The end of a served request on the direct road: its row, when the database journals, and COMMIT. */
    method Finish(t: Tx, journal: bool, req: Request?, f: DirectScript) returns (err: Option<Cause>, ghost rows: map<nat, Row>)
      requires db.Valid() && t.work.rows == map[] && (req != null ==> req.logId == 0) && (journal ==> req != null)
      modifies db, req
      ensures db.Valid()
      ensures req != null ==> req.status == old(req.status)
      ensures err.None? <==> !t.aborted && f.commit.None? && (journal ==> f.log.Done?)
      ensures err.Some? ==> err.value == FinishFault(t.aborted, journal, f)
      ensures db.data == old(db.data) + if err.None? then t.work.writes else []
      ensures db.journal == old(db.journal) + rows
      ensures forall id :: id in rows ==> rows[id].code == None
      ensures journal && err.None? ==>
        && 0 < req.logId && req.logId !in old(db.journal)
        && rows.Keys == {req.logId} && rows[req.logId].status == Some(req.Status())
      ensures !journal || err.Some? ==> rows == map[]
      ensures req != null && (!journal || err.Some?) ==> (req.logId != 0 <==> journal && !t.aborted && f.log.Spoiled?)
      ensures FreshId(if req == null then 0 else req.logId, old(db.lastId), db.lastId)
    {
      var t' := t;
      rows := map[];
      if journal {
        t', err := LogRequest(t, req, req.Status(), None, f.log);
        if err.Some? {
          return;
        }
        assert t'.work.rows.Keys == {req.logId};
      }
      err := db.Commit(t', f.commit);
      if err.None? {
        rows := t'.work.rows;
      } else if req != null {
        req.logId := 0;
      }
    }

    /** Do's end for a handler that failed: its work undone to the savepoint, the refusal journalled. */
    method Refuse(t: Tx, journal: bool, req: Request?, cause: Cause, f: DirectScript) returns (p: Problem, ghost rows: map<nat, Row>)
      requires db.Valid() && (req != null ==> req.logId == 0)
      requires journal ==> req != null && |t.marks| > 0 && t.marks[0].writes == [] && t.marks[0].rows == map[]
      modifies db, if req == null then {} else {req}`logId
      ensures db.Valid() && db.data == old(db.data) && db.journal == old(db.journal) + rows
      ensures Fits(p, cause, Verb(req))
      ensures Added(old(db.journal), rows) && FreshId(if req == null then 0 else req.logId, old(db.lastId), db.lastId)
      ensures req != null ==> Sincere(rows, req.logId, p.status, false)
      ensures rows != map[] <==> journal && f.rollbackTo.Done? && f.log.Done? && f.commit.None?
      ensures forall id :: id in rows ==>
        rows[id].code == (if features.logRequestErr then p.code else None) && rows[id].session == t.marks[0].session
    {
      p := Explain(cause, Verb(req));
      rows := map[];
      if journal && f.rollbackTo.Done? {
        rows := JournalRefusal(RolledBackTo(t, 0), req, p, f);
      }
      if req != null {
        KeptIsSincere(rows, req.logId, p.status);
      }
    }

    /** The audit row of a request that was not admitted, in a transaction that holds nothing. */
    method RefuseEarly(journal: bool, req: Request?, p: Problem, f: DirectScript) returns (ghost rows: map<nat, Row>)
      requires db.Valid() && (req != null ==> req.logId == 0) && (journal ==> req != null)
      modifies db, if req == null then {} else {req}`logId
      ensures db.Valid() && db.data == old(db.data) && db.journal == old(db.journal) + rows
      ensures Added(old(db.journal), rows) && FreshId(if req == null then 0 else req.logId, old(db.lastId), db.lastId)
      ensures req != null ==> Sincere(rows, req.logId, p.status, false)
      ensures |rows| == if journal && f.log.Done? && f.commit.None? then 1 else 0
      ensures forall id :: id in rows ==> rows[id].code == if features.logRequestErr then p.code else None
    {
      rows := map[];
      if journal {
        rows := JournalRefusal(FRESH, req, p, f);
        AtMostOne(req.logId, rows);
      }
      if req != null {
        KeptIsSincere(rows, req.logId, p.status);
      }
    }

    /** Do's end for a handler that succeeded. */
    method Conclude(t: Tx, journal: bool, req: Request?, f: DirectScript) returns (err: Option<Problem>, ghost rows: map<nat, Row>)
      requires db.Valid() && t.work.rows == map[] && (req != null ==> req.logId == 0) && (journal ==> req != null)
      modifies db, req
      ensures db.Valid()
      ensures req != null ==> req.status == old(req.status)
      ensures err.None? <==> !t.aborted && f.commit.None? && (journal ==> f.log.Done?)
      ensures ToldEnd(err, t.aborted, f, journal, Verb(req))
      ensures db.data == old(db.data) + if err.None? then t.work.writes else []
      ensures db.journal == old(db.journal) + rows
      ensures Added(old(db.journal), rows) && FreshId(if req == null then 0 else req.logId, old(db.lastId), db.lastId)
      ensures req != null ==> Sincere(rows, req.logId, Answer(err, req.Status()), journal && !t.aborted && f.log.Spoiled?)
      ensures rows != map[] <==> journal && err.None?
      ensures forall id :: id in rows ==> rows[id].code == None
    {
      var cause, kept := Finish(t, journal, req, f);
      rows := kept;
      err := if cause.None? then None else Some(Explain(cause.value, Verb(req)));
      AbortedIsInternal(Verb(req));
      if journal && cause.None? {
        AtMostOne(req.logId, rows);
      }
      if req != null {
        if cause.Some? && req.logId != 0 {
          StrayIsInsincere(req.logId, err.value.status);
        } else {
          KeptIsSincere(rows, req.logId, Answer(err, req.Status()));
        }
      }
    }

    /** Do on the direct road once the database has authorised the session. */
    method ServeAuthorized(session: string, req: Request?, h: Handler, f: DirectScript)
      returns (err: Option<Problem>, ghost ran: nat, ghost rows: map<nat, Row>)
      requires db.Valid() && (req != null ==> req.logId == 0)
      modifies db, req
      ensures db.Valid()
      ensures Atomic(old(db.data), db.data, h, err, true, ran) && ToldWhy(err, h, Verb(req), ran)
      ensures ran == 1 && h.result.None? ==> ToldEnd(err, Swallows(h), f, features.logRequest && req != null, Verb(req))
      ensures ran == 0 ==> err == Some(Problem(500, None))
      ensures forall id :: id in rows ==> rows[id].code == if features.logRequestErr && err.Some? then err.value.code else None
      ensures f.begin && f.auth == Verdict(true) ==>
        && (err.None? <==> DirectSucceeds(f, h, features.logRequest && req != null))
        && (req != null ==> Sincere(rows, req.logId, Answer(err, req.Status()), Stray(f, h, features.logRequest)))
      ensures req != null ==> req.status == if ran == 1 && h.status != 0 then h.status else old(req.status)
      ensures db.journal == old(db.journal) + rows
      ensures req == null || !features.logRequest ==> rows == map[]
      ensures Added(old(db.journal), rows)
      ensures FreshId(if req == null then 0 else req.logId, old(db.lastId), db.lastId)
      ensures req != null && features.logRequest && OnlyClientFailures(f) ==> (rows != map[] <==> !Swallows(h))
      ensures forall id :: id in rows && err.Some? ==> rows[id].session == Some(session)
    {
      ran, rows := 0, map[];
      var journal := features.logRequest && req != null;
      var work := NOTHING.(session := Some(session));
      var t := Tx(work, [], false);
      if journal {
        if !f.savepoint.Done? {
          return Some(INTERNAL), ran, rows;
        }
        t := Marked(t);
      }
      assert t == Tx(work, if journal then [work] else [], false);
      HandlerOnRoad(work, journal, h);
      var result;
      t, result := Handle(t, |t.marks|, req, h);
      ran := 1;
      if result.Some? {
        var p, kept := Refuse(t, journal, req, result.value, f);
        return Some(p), ran, kept;
      }
      var e, kept := Conclude(t, journal, req, f);
      err, rows := e, kept;
    }

    /** Do on the direct road. */
    method DoDirect(session: string, req: Request?, h: Handler, f: DirectScript)
      returns (err: Option<Problem>, ghost admitted: bool, ghost ran: nat, ghost rows: map<nat, Row>)
      requires db.Valid()
      modifies db, req
      ensures db.Valid()
      ensures Atomic(old(db.data), db.data, h, err, admitted, ran) && ToldWhy(err, h, Verb(req), ran)
      ensures ran == 1 && h.result.None? ==> ToldEnd(err, Swallows(h), f, features.logRequest && req != null, Verb(req))
      ensures !f.begin || (admitted && ran == 0) ==> err == Some(Problem(500, None))
      ensures err.None? <==> DirectSucceeds(f, h, features.logRequest && req != null)
      ensures f.begin && f.auth == Verdict(false) ==> err == Some(Problem(401, Some("ERR-401-001")))
      ensures f.begin && f.auth.AuthFailed? ==> err.Some? && Fits(err.value, f.auth.cause, Verb(req))
      ensures req != null ==> req.status == if ran == 1 && h.status != 0 then h.status else old(req.status)
      ensures db.journal == old(db.journal) + rows
      ensures req == null || !features.logRequest ==> rows == map[]
      ensures Added(old(db.journal), rows)
      ensures FreshId(if req == null then 0 else req.logId, old(db.lastId), db.lastId)
      // journal truthfulness, and the one failure it does not survive
      ensures req != null ==> Sincere(rows, req.logId, Answer(err, req.Status()), Stray(f, h, features.logRequest))
      // audit completeness, and the one kind of handler it fails for
      ensures req != null && features.logRequest && OnlyClientFailures(f) ==>
        (|rows| == 1 <==> !(f.auth == Verdict(true) && Swallows(h)))
      // the row of a refused handler is written under the caller's session, set before the savepoint
      ensures forall id :: id in rows && admitted && err.Some? ==> rows[id].session == Some(session)
      // the row's code is what the client is told, where the database takes one
      ensures forall id :: id in rows ==> rows[id].code == if features.logRequestErr && err.Some? then err.value.code else None
    {
      admitted, ran, rows := false, 0, map[];
      if req != null {
        req.logId := 0;
      }
      if !f.begin {
        return Some(INTERNAL), admitted, ran, rows;
      }
      match f.auth {
        case AuthFailed(cause) =>
          var p := Explain(cause, Verb(req));
          rows := RefuseEarly(features.logRequest && req != null && f.freshBegin, req, p, f);
          err := Some(p);
        case Verdict(authorized) =>
          if authorized {
            admitted := true;
            err, ran, rows := ServeAuthorized(session, req, h, f);
          } else {
            var p := Problem(401, Some("ERR-401-001"));
            rows := RefuseEarly(features.logRequest && req != null, req, p, f);
            err := Some(p);
          }
      }
      assert rows != map[] ==> |rows| != 0;
    }

    /** end: completes the row daemon.begin wrote and reports its id when the answer carries one. */
    method End(t: Tx, id: nat, req: Request, status: int, code: Option<string>, reply: EndReply)
      returns (t': Tx, ok: bool)
      requires id in t.work.rows
      modifies req`logId
      ensures ok <==> !t.aborted && !reply.EndFailed?
      ensures req.logId == if ok && reply.EndReported? then id else old(req.logId)
      ensures t'.marks == t.marks
      ensures ok ==> t' == (if reply == EndSilent(false) then t else Completed(t, id, status, code))
    {
      var done := Completed(t, id, status, code);
      if t.aborted {
        return t, false;
      }
      match reply
      case EndFailed(unread) =>
        t', ok := if unread then done else t.(aborted := true), false;
      case EndSilent(completed) =>
        t', ok := if completed then done else t, true;
      case EndReported =>
        req.logId := id;
        t', ok := done, true;
    }

    /** salvage: the handler's work undone once more to the savepoint, begin's row committed alone. */
    method Salvage(t: Tx, f: DaemonScript) returns (ghost rows: map<nat, Row>)
      requires db.Valid() && |t.marks| > 0 && t.marks[0].writes == []
      requires forall id :: id in t.marks[0].rows ==> 0 < id <= db.lastId
      modifies db`data, db`journal
      ensures db.Valid() && db.data == old(db.data) && db.journal == old(db.journal) + rows
      ensures rows == if f.salvageTo.Done? && f.salvageCommit.None? then t.marks[0].rows else map[]
    {
      rows := map[];
      if f.salvageTo.Done? {
        var t' := RolledBackTo(t, 0);
        var cerr := db.Commit(t', f.salvageCommit);
        if cerr.None? {
          rows := t'.work.rows;
        }
      }
    }

    /** The close of a request on the daemon road: daemon.end, then COMMIT; a request that cannot be
        ended is salvaged. Nil means ended and committed. */
    method Close(t: Tx, id: nat, req: Request, status: int, code: Option<string>, f: DaemonScript)
      returns (ended: bool, err: Option<Cause>, ghost rows: map<nat, Row>)
      requires db.Valid() && 0 < id <= db.lastId && id !in db.journal && req.logId == 0
      requires t.work.rows.Keys == {id} && |t.marks| > 0 && t.marks[0].writes == [] && t.marks[0].rows == t.work.rows
      modifies db`data, db`journal, req`logId
      ensures db.Valid() && db.journal == old(db.journal) + rows
      ensures ended <==> !t.aborted && !f.end.EndFailed?
      ensures err.None? <==> ended && f.commit.None?
      ensures db.data == old(db.data) + if err.None? then t.work.writes else []
      ensures rows == map[] || rows == map[id := t.work.rows[id]] ||
              (err.None? && rows == map[id := t.work.rows[id].(status := Some(status), code := code)])
      ensures req.logId != 0 <==> err.None? && f.end.EndReported?
      ensures err.Some? ==> err == if ended then f.commit else Some(Broken)
      ensures req.logId != 0 ==>
        err.None? && req.logId == id && rows == map[id := t.work.rows[id].(status := Some(status), code := code)]
      ensures f.commit.None? && f.salvageTo.Done? && f.salvageCommit.None? ==> id in rows
    {
      var t', ok := End(t, id, req, status, code, f.end);
      if !ok {
        req.logId := 0;
        rows := Salvage(t', f);
        assert rows != map[] ==> rows == map[id := t.work.rows[id]];
        return false, Some(Broken), rows;
      }
      err := db.Commit(t', f.commit);
      ended, rows := true, map[];
      if err.Some? {
        req.logId := 0;
      } else {
        rows := t'.work.rows;
        assert rows == map[id := rows[id]];
      }
    }

    /** doDaemon once daemon.begin has admitted the request and written its row `id`. */
    method ServeAdmitted(session: string, id: nat, req: Request, h: Handler, f: DaemonScript)
      returns (err: Option<Problem>, ghost ran: nat, ghost rows: map<nat, Row>)
      requires db.Valid() && 0 < id == db.lastId && id !in db.journal && req.logId == 0
      modifies db`data, db`journal, req
      ensures db.Valid()
      ensures Atomic(old(db.data), db.data, h, err, true, ran) && ToldWhy(err, h, Some(req.verb), ran)
      ensures ToldClose(err, h, f, Some(req.verb), ran)
      ensures ran == 0 ==> err == Some(Problem(500, None))
      ensures id in rows ==> if rows[id].status.Some? then CodeFits(rows[id].code, h, err) else rows[id].code == None
      ensures f.begin && f.daemonBegin.Admitted? ==> (req.logId != 0 <==> DaemonReports(f, h))
      ensures f.begin && f.daemonBegin.Admitted? ==> (err.None? <==> DaemonSucceeds(f, h))
      ensures req.status == if ran == 1 && h.status != 0 then h.status else old(req.status)
      ensures db.journal == old(db.journal) + rows
      ensures rows.Keys <= {id}
      ensures id in rows ==> OwnRow(rows[id], session, Answer(err, req.Status()))
      ensures req.logId != 0 ==> req.logId == id && id in rows && rows[id].status.Some?
      ensures OnlyDaemonFailures(f) ==> id in rows
    {
      ran, rows := 0, map[];
      var work := Work([], map[id := Row(None, None, Some(session))], Some(session));
      if !f.savepoint.Done? {
        return Some(INTERNAL), ran, rows;
      }
      var start := Marked(Tx(work, [], false));
      assert start == Tx(work, [work], false);
      HandlerOnRoad(work, true, h);
      var t, result := Handle(start, 1, req, h);
      ran := 1;
      if result.Some? {
        var p := Explain(result.value, Some(req.verb));
        err := Some(p);
        if f.rollbackTo.Done? {
          var (status, code) := RefusalOf(p, result.value);
          var _, _, kept := Close(RolledBackTo(t, 0), id, req, status, code, f);
          rows := kept;
        }
      } else {
        var ended, cerr, kept := Close(t, id, req, req.Status(), None, f);
        rows := kept;
        err := if cerr.None? then None
               else Some(if ended then Explain(cerr.value, Some(req.verb)) else INTERNAL);
      }
    }

    /** doDaemon. */
    method DoDaemon(session: string, req: Request?, h: Handler, f: DaemonScript)
      returns (err: Option<Problem>, ghost admitted: bool, ghost ran: nat, ghost rows: map<nat, Row>)
      requires db.Valid()
      modifies db, req
      ensures db.Valid()
      ensures Atomic(old(db.data), db.data, h, err, admitted, ran) && ToldWhy(err, h, Verb(req), ran)
      ensures ToldClose(err, h, f, Verb(req), ran)
      ensures req == null || !f.begin || f.daemonBegin.BeginFailed? || (admitted && ran == 0) ==> err == Some(Problem(500, None))
      ensures err.None? <==> req != null && DaemonSucceeds(f, h)
      ensures req != null ==> req.status == if ran == 1 && h.status != 0 then h.status else old(req.status)
      ensures db.journal == old(db.journal) + rows
      ensures req == null ==> err.Some? && rows == map[] && ran == 0
      ensures Added(old(db.journal), rows)
      ensures FreshId(if req == null then 0 else req.logId, old(db.lastId), db.lastId)
      ensures req != null ==> Truthful(rows, req.logId, Answer(err, req.Status()))
      // a row an admitted request leaves behind it, reported or not, has the client's status or none
      ensures req != null && admitted ==>
        forall id :: id in rows ==> OwnRow(rows[id], session, Answer(err, req.Status()))
      ensures req != null && admitted ==>
        forall id :: id in rows ==> if rows[id].status.Some? then CodeFits(rows[id].code, h, err) else rows[id].code == None
      ensures req != null ==> (req.logId != 0 <==> DaemonReports(f, h))
      // audit completeness has no exception here: salvage covers the handler that swallows a failure
      ensures req != null && OnlyDaemonFailures(f) ==> |rows| == 1
      // a refusal of daemon.begin: its row carries the status the database gave
      ensures req != null && f.begin && f.daemonBegin.BeginRefused? ==>
        && err == Some(BeginRefusal(f.daemonBegin.status, f.daemonBegin.code))
        && forall id :: id in rows ==> rows[id].status == f.daemonBegin.status
    {
      admitted, ran, rows := false, 0, map[];
      if req == null {
        return Some(INTERNAL), admitted, ran, rows;
      }
      req.logId := 0;
      if !f.begin {
        return Some(INTERNAL), admitted, ran, rows;
      }
      var id := db.NextId();
      match f.daemonBegin {
        case BeginFailed =>
          err := Some(INTERNAL);
        case BeginRefused(status, code) =>
          var work := NOTHING.(rows := map[id := Row(status, code, None)]);
          OneRow(id, work.rows[id]);
          var cerr := db.Commit(Tx(work, [], false), f.commit);
          if cerr.None? {
            rows := work.rows;
          }
          err := Some(BeginRefusal(status, code));
        case Admitted =>
          admitted := true;
          err, ran, rows := ServeAdmitted(session, id, req, h, f);
          AtMostOne(id, rows);
      }
    }

    /** Do: the road the database offers. */
    method Do(session: string, req: Request?, h: Handler, direct: DirectScript, daemon: DaemonScript)
      returns (err: Option<Problem>, ghost admitted: bool, ghost ran: nat, ghost rows: map<nat, Row>)
      requires db.Valid()
      modifies db, req
      ensures db.Valid()
      ensures Atomic(old(db.data), db.data, h, err, admitted, ran) && ToldWhy(err, h, Verb(req), ran)
      ensures if features.daemon then ToldClose(err, h, daemon, Verb(req), ran)
              else ran == 1 && h.result.None? ==> ToldEnd(err, Swallows(h), direct, features.logRequest && req != null, Verb(req))
      ensures err.None? <==>
        if features.daemon then req != null && DaemonSucceeds(daemon, h) else DirectSucceeds(direct, h, features.logRequest && req != null)
      ensures req != null ==> req.status == if ran == 1 && h.status != 0 then h.status else old(req.status)
      ensures db.journal == old(db.journal) + rows
      ensures req == null ==> rows == map[]
      ensures Added(old(db.journal), rows)
      ensures FreshId(if req == null then 0 else req.logId, old(db.lastId), db.lastId)
      ensures req != null ==>
        (Truthful(rows, req.logId, Answer(err, req.Status())) <==> features.daemon || !Stray(direct, h, features.logRequest))
    {
      if features.daemon {
        err, admitted, ran, rows := DoDaemon(session, req, h, daemon);
      } else {
        err, admitted, ran, rows := DoDirect(session, req, h, direct);
      }
    }

    method ServeOne(job: Job) returns (err: Option<Problem>, id: nat, ghost rows: map<nat, Row>)
      requires db.Valid()
      modifies db
      ensures db.Valid()
      ensures db.data == old(db.data) + if err.None? then Effects(job.handler) else []
      ensures db.journal == old(db.journal) + rows
      ensures Added(old(db.journal), rows) && FreshId(id, old(db.lastId), db.lastId)
      ensures Truthful(rows, id, Told(job, err)) <==> !Strays(job, features)
    {
      var req := new Request(job.verb, 0, 0);
      var e, _, _, r := Do(job.session, req, job.handler, job.direct, job.daemon);
      err, id, rows := e, req.logId, r;
    }

    /** A process's life: requests one after another, each under its own pattern of failures. What
        is in the database at the end is what the accepted ones wrote, in order; the journal has
        grown by at most a row a request, no earlier row was touched, no id was reported twice, and
        every id reported on the way but a stray one is a row with the status its client got. */
    method Serve(jobs: seq<Job>) returns (errs: seq<Option<Problem>>, ids: seq<nat>)
      requires db.Valid()
      modifies db
      ensures db.Valid() && |errs| == |ids| == |jobs|
      ensures History(Past(old(db.data), old(db.journal)), Past(db.data, db.journal), jobs, errs, ids, db.lastId, features)
    {
      errs, ids := [], [];
      ghost var start := Past(db.data, db.journal);
      assert jobs[..0] == [];
      for i := 0 to |jobs|
        invariant db.Valid() && |errs| == |ids| == i
        invariant History(start, Past(db.data, db.journal), jobs[..i], errs, ids, db.lastId, features)
      {
        errs, ids := ServeNext(start, jobs[..i], errs, ids, jobs[i]);
        assert jobs[..i] + [jobs[i]] == jobs[..i + 1];
      }
      assert jobs[..|jobs|] == jobs;
    }

    /** One request more in a run. */
    method ServeNext(ghost start: Past, ghost before: seq<Job>, errs: seq<Option<Problem>>, ids: seq<nat>, job: Job)
      returns (errs': seq<Option<Problem>>, ids': seq<nat>)
      requires db.Valid() && |before| == |errs| == |ids|
      requires History(start, Past(db.data, db.journal), before, errs, ids, db.lastId, features)
      modifies db
      ensures db.Valid() && |errs'| == |ids'| == |before| + 1
      ensures History(start, Past(db.data, db.journal), before + [job], errs', ids', db.lastId, features)
    {
      ghost var mid, last := Past(db.data, db.journal), db.lastId;
      var err, id, rows := ServeOne(job);
      HistorySnoc(start, mid, before, errs, ids, last, features, job, err, id, rows, db.lastId);
      assert Grows(mid, job, err, rows) == Past(db.data, db.journal);
      errs', ids' := errs + [err], ids + [id];
    }
  }

  /** What is committed. */
  datatype Past = Past(data: seq<Write>, journal: map<nat, Row>)

  function Grows(past: Past, job: Job, err: Option<Problem>, rows: map<nat, Row>): Past {
    Past(past.data + if err.None? then Effects(job.handler) else [], past.journal + rows)
  }

  /** A run of requests: what was committed before and is after, the answers, the ids reported, the last
      id given out. */
  ghost predicate History(before: Past, after: Past, jobs: seq<Job>, errs: seq<Option<Problem>>, ids: seq<nat>, last: nat, features: Features)
    requires |jobs| == |errs| == |ids|
  {
    && after.data == before.data + Accepted(jobs, errs)
    && Grown(before.journal, after.journal, |jobs|)
    && Reported(jobs, errs, ids, before.journal, after.journal, features)
    && OnceEach(ids) && UpTo(ids, last)
  }

  lemma HistorySnoc(before: Past, mid: Past, jobs: seq<Job>, errs: seq<Option<Problem>>, ids: seq<nat>, last: nat, features: Features,
                    job: Job, err: Option<Problem>, id: nat, rows: map<nat, Row>, last': nat)
    requires |jobs| == |errs| == |ids| && History(before, mid, jobs, errs, ids, last, features)
    requires Added(mid.journal, rows) && FreshId(id, last, last')
    requires !Strays(job, features) ==> Truthful(rows, id, Told(job, err))
    ensures History(before, Grows(mid, job, err, rows), jobs + [job], errs + [err], ids + [id], last', features)
  {
    DataSnoc(before, mid, jobs, errs, job, err);
    JournalGrowth(before.journal, mid.journal, rows, |jobs|);
    ReportedSnoc(jobs, errs, ids, before.journal, mid.journal, job, err, id, rows, features);
    OnceEachSnoc(ids, id, last, last');
  }

  lemma DataSnoc(before: Past, mid: Past, jobs: seq<Job>, errs: seq<Option<Problem>>, job: Job, err: Option<Problem>)
    requires |jobs| == |errs| && mid.data == before.data + Accepted(jobs, errs)
    ensures mid.data + (if err.None? then Effects(job.handler) else []) == before.data + Accepted(jobs + [job], errs + [err])
  {
    AcceptedSnoc(jobs, errs, job, err);
    Regroup(before.data, Accepted(jobs, errs), if err.None? then Effects(job.handler) else []);
  }

  lemma Regroup(a: seq<Write>, b: seq<Write>, c: seq<Write>)
    ensures (a + b) + c == a + (b + c)
  {
  }

  /** The status the client of a job got. */
  function Told(job: Job, err: Option<Problem>): int {
    Answer(err, if job.handler.status != 0 then job.handler.status else 200)
  }

  predicate Strays(job: Job, features: Features) { !features.daemon && Stray(job.direct, job.handler, features.logRequest) }

  /** The journal after n requests: no earlier row touched, at most a row a request added. */
  ghost predicate Grown(before: map<nat, Row>, after: map<nat, Row>, n: nat) {
    && before.Keys <= after.Keys && |after| <= |before| + n
    && forall id :: id in before ==> after[id] == before[id]
  }

  /** The id, if there is one, is a new row with that status. */
  ghost predicate NewRow(id: nat, status: int, before: map<nat, Row>, after: map<nat, Row>) {
    id != 0 ==> id in after && id !in before && after[id].status == Some(status)
  }

  /** Every id reported but the stray ones is a new row with the status its client got. */
  ghost predicate Reported(jobs: seq<Job>, errs: seq<Option<Problem>>, ids: seq<nat>, before: map<nat, Row>, after: map<nat, Row>,
                           features: Features)
    requires |jobs| == |errs| == |ids|
  {
    forall i :: 0 <= i < |jobs| && !Strays(jobs[i], features) ==> NewRow(ids[i], Told(jobs[i], errs[i]), before, after)
  }

  ghost predicate OnceEach(ids: seq<nat>) { forall i, j :: 0 <= i < j < |ids| && ids[i] != 0 ==> ids[i] != ids[j] }

  ghost predicate UpTo(ids: seq<nat>, last: nat) { forall i :: 0 <= i < |ids| ==> ids[i] <= last }

  lemma OnceEachSnoc(ids: seq<nat>, id: nat, before: nat, after: nat)
    requires OnceEach(ids) && UpTo(ids, before) && FreshId(id, before, after)
    ensures OnceEach(ids + [id]) && UpTo(ids + [id], after)
  {
  }

  lemma NewRowKept(id: nat, status: int, before: map<nat, Row>, mid: map<nat, Row>, rows: map<nat, Row>)
    requires NewRow(id, status, before, mid) && mid.Keys !! rows.Keys
    ensures NewRow(id, status, before, mid + rows)
  {
  }

  lemma ReportedSnoc(jobs: seq<Job>, errs: seq<Option<Problem>>, ids: seq<nat>, before: map<nat, Row>, mid: map<nat, Row>,
                     job: Job, err: Option<Problem>, id: nat, rows: map<nat, Row>, features: Features)
    requires |jobs| == |errs| == |ids|
    requires Reported(jobs, errs, ids, before, mid, features) && before.Keys <= mid.Keys && mid.Keys !! rows.Keys
    requires !Strays(job, features) ==> Truthful(rows, id, Told(job, err))
    ensures Reported(jobs + [job], errs + [err], ids + [id], before, mid + rows, features)
  {
    var jobs', errs', ids' := jobs + [job], errs + [err], ids + [id];
    forall i | 0 <= i < |jobs'| && !Strays(jobs'[i], features) ensures NewRow(ids'[i], Told(jobs'[i], errs'[i]), before, mid + rows) {
      if i < |jobs| {
        NewRowKept(ids[i], Told(jobs[i], errs[i]), before, mid, rows);
      }
    }
  }

  /** A row of an admitted request: under the caller's session, with the client's status or none yet. */
  ghost predicate OwnRow(row: Row, session: string, answer: int) {
    row.session == Some(session) && (row.status == None || row.status == Some(answer))
  }

  function Completed(t: Tx, id: nat, status: int, code: Option<string>): Tx
    requires id in t.work.rows
  {
    t.(work := t.work.(rows := t.work.rows[id := t.work.rows[id].(status := Some(status), code := code)]))
  }

  /** refusalOf: the status daemon.end journals, and the catalogue code its text carries. */
  function RefusalOf(p: Problem, cause: Cause): (int, Option<string>) {
    (p.status,
     if cause.Raised? then (if cause.refusal.Some? then cause.refusal.value.code else None) else p.code)
  }

  datatype Job = Job(verb: string, session: string, handler: Handler, direct: DirectScript, daemon: DaemonScript)

  /** The effects of the requests that were answered without an error, in order. */
  function Accepted(jobs: seq<Job>, errs: seq<Option<Problem>>): seq<Write>
    requires |jobs| == |errs|
  {
    if jobs == [] then []
    else
      var n := |jobs| - 1;
      Accepted(jobs[..n], errs[..n]) + if errs[n].None? then Effects(jobs[n].handler) else []
  }

  lemma AcceptedSnoc(jobs: seq<Job>, errs: seq<Option<Problem>>, job: Job, err: Option<Problem>)
    requires |jobs| == |errs|
    ensures Accepted(jobs + [job], errs + [err]) ==
            Accepted(jobs, errs) + if err.None? then Effects(job.handler) else []
  {
    assert (jobs + [job])[..|jobs|] == jobs && (errs + [err])[..|jobs|] == errs;
  }

  lemma JournalGrowth(before: map<nat, Row>, mid: map<nat, Row>, rows: map<nat, Row>, n: nat)
    requires Grown(before, mid, n) && |rows| <= 1 && mid.Keys !! rows.Keys
    ensures Grown(before, mid + rows, n + 1)
  {
    assert (mid + rows).Keys == mid.Keys + rows.Keys;
  }
}
