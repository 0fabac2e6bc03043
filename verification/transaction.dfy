/**
  `Transaction` of `src/Transaction.ts` and its earlier, lock-free Flow
  version `src/Transaction.js`: nested transactions as savepoints, the
  cursor guard on `query` and `streamQuery`, and the count of unfinished
  insert streams checked before a savepoint is released.

  A transaction callback is a program of steps run against the connection,
  and what the model observes is the trace of events on that connection:
  the statements issued and, in the TypeScript version, the acquisitions
  and releases of the nested-transaction lock. The database is an oracle
  that answers each statement with nothing or an error.
 */
module Transactions {
  import opened Wrappers
  import opened Values
  import opened Errors
  import Queryable

  /** The TypeScript `Transaction` (with the nested-transaction lock) or the Flow one (without). */
  datatype Flavor = Typed | Flow

  /** A statement issued on the transaction's connection. */
  datatype Command =
    | Begin
    | Commit
    | Rollback
    | Savepoint(n: nat)
    | ReleaseSavepoint(n: nat)
    | RollbackToSavepoint(n: nat)
    | Statement(text: string)
    | Cursor(text: string)

  /** The decimal digits of `n`. */
  function Digits(n: nat): (s: string)
    ensures |s| >= 1
    decreases n
  {
    var d := "0123456789";
    if n < 10 then [d[n]] else Digits(n / 10) + [d[n % 10]]
  }

  /** The name of the n-th savepoint: `savepoint<n>`. */
  function SavepointName(n: nat): string {
    "savepoint" + Digits(n)
  }

  /** The SQL text the library sends for a command. */
  function CommandText(c: Command): string {
    match c
    case Begin => "BEGIN"
    case Commit => "COMMIT"
    case Rollback => "ROLLBACK"
    case Savepoint(n) => "SAVEPOINT " + SavepointName(n)
    case ReleaseSavepoint(n) => "RELEASE SAVEPOINT " + SavepointName(n)
    case RollbackToSavepoint(n) => "ROLLBACK TO SAVEPOINT " + SavepointName(n)
    case Statement(text) => text
    case Cursor(text) => text
  }

  /** The statements the tests expect, spelled out. */
  lemma SavepointStatementTexts()
    ensures CommandText(Savepoint(1)) == "SAVEPOINT savepoint1"
    ensures CommandText(ReleaseSavepoint(1)) == "RELEASE SAVEPOINT savepoint1"
    ensures CommandText(RollbackToSavepoint(1)) == "ROLLBACK TO SAVEPOINT savepoint1"
    ensures CommandText(Savepoint(12)) == "SAVEPOINT savepoint12"
  {
  }

  /**
    What happens on a connection: a statement issued, the nested-transaction
    lock taken or given back, and (for the client that owns the connection)
    the checkout from the pool and the release back to it.
   */
  datatype Event =
    | Issued(command: Command)
    | LockAcquired
    | LockReleased
    | CheckedOut
    | Released(error: Option<Error>)

  /**
    The fixed context of a run: the flavour, the connection's `debug` flag
    (which every nested transaction inherits) and the database's answer to
    each statement.
   */
  datatype Session = Session(flavor: Flavor, debug: bool, db: Command -> Option<Error>)

  /**
    One step of a transaction callback:
    `Run` awaits `query(text)` and lets a failure propagate;
    `Nested` awaits `transaction(body)` and lets a failure propagate;
    `TryNested` awaits it inside a `try` that swallows the failure;
    `Throw` throws from the callback;
    `OpenInsertStream` calls `insertStream`;
    `FinishInsertStream(k)` is the `finish` event of the k-th stream opened here;
    `OpenCursor` awaits `streamQuery(text)`;
    `CursorSignal` is an `error`, `end` or `close` event of an open cursor.
   */
  datatype Step =
    | Run(text: string)
    | Nested(body: seq<Step>)
    | TryNested(body: seq<Step>)
    | Throw(e: Error)
    | OpenInsertStream
    | FinishInsertStream(k: nat)
    | OpenCursor(text: string)
    | CursorSignal

  /**
    The state of one `Transaction` object: its savepoint counter, whether a
    read cursor is open, which of the insert streams it opened have
    finished (in opening order) and the in-progress counter the source keeps.
   */
  datatype Tx = Tx(counter: nat, cursorOpen: bool, streams: seq<bool>, inProgress: int)

  /** The result of running steps: the transaction's state, the events, and the error thrown if any. */
  datatype Outcome = Outcome(tx: Tx, trace: seq<Event>, thrown: Option<Error>)

  /** A new `Transaction`: the counter is the supplied one or 0; no cursor and no streams. */
  function NewTx(savepointCounter: Option<nat>): (tx: Tx)
    ensures savepointCounter.Some? ==> tx.counter == savepointCounter.value
    ensures savepointCounter.None? ==> tx.counter == 0
    ensures !tx.cursorOpen && tx.streams == [] && tx.inProgress == 0
  {
    Tx(savepointCounter.GetOr(0), false, [], 0)
  }

  /** The number of streams opened and not yet finished. */
  function Unfinished(streams: seq<bool>): nat {
    if |streams| == 0 then 0
    else Unfinished(streams[..|streams| - 1]) + (if streams[|streams| - 1] then 0 else 1)
  }

  lemma {:induction false} UnfinishedAppend(streams: seq<bool>)
    ensures Unfinished(streams + [false]) == Unfinished(streams) + 1
  {
    assert (streams + [false])[..|streams|] == streams;
  }

  lemma {:induction false} UnfinishedFinish(streams: seq<bool>, k: nat)
    requires k < |streams| && !streams[k]
    ensures Unfinished(streams[k := true]) + 1 == Unfinished(streams)
    decreases |streams|
  {
    var n := |streams| - 1;
    var t := streams[k := true];
    if k == n {
      assert t[..n] == streams[..n];
    } else {
      assert t[..n] == streams[..n][k := true];
      UnfinishedFinish(streams[..n], k);
    }
  }

  /** The stream counter agrees with the streams opened and not finished. */
  predicate CountsUnfinished(tx: Tx) {
    tx.inProgress == Unfinished(tx.streams)
  }

  /** `validateUnfinishedInsertStreams`: an error carrying the counter when it is positive. */
  function Validate(tx: Tx): (e: Option<Error>)
    ensures e.None? <==> tx.inProgress <= 0
    ensures e.Some? ==> e.value == UnfinishedInsertStreams(tx.inProgress)
  {
    if tx.inProgress > 0 then Some(UnfinishedInsertStreams(tx.inProgress)) else None
  }

  /** What `query` throws when the database fails on a command. */
  function QueryThrows(s: Session, c: Command, e: Error): Error {
    Queryable.FailureError(s.debug, Text(CommandText(c)), None, e)
  }

  /**
    `Transaction.query` for a command: rejected without issuing anything
    while a cursor is open; otherwise issued, failing exactly when the
    database fails, with the error `QueryableConnection.query` throws.
   */
  function TxQuery(s: Session, tx: Tx, c: Command): (r: (seq<Event>, Option<Error>))
    ensures tx.cursorOpen ==> r == ([], Some(CursorInProgress))
    ensures !tx.cursorOpen ==> r.0 == [Issued(c)] && (r.1.Some? <==> s.db(c).Some?)
    ensures !tx.cursorOpen && !s.debug ==> r.1 == s.db(c)
  {
    if tx.cursorOpen then ([], Some(CursorInProgress))
    else if s.db(c).Some? then ([Issued(c)], Some(QueryThrows(s, c, s.db(c).value)))
    else ([Issued(c)], None)
  }

  /**
    `streamQuery`: rejected while a cursor is open; otherwise the cursor is
    submitted and, unless the submission throws, the flag is set. The
    TypeScript version submits on the raw connection, so the error is the
    driver's own; the Flow version submits through `query`, so it is wrapped
    as `query` wraps errors.
   */
  function StreamQuery(s: Session, tx: Tx, text: string): (o: Outcome)
    ensures tx.cursorOpen ==> o == Outcome(tx, [], Some(CursorInProgress))
    ensures !tx.cursorOpen ==> o.trace == [Issued(Cursor(text))]
    ensures !tx.cursorOpen ==> (o.thrown.None? <==> s.db(Cursor(text)).None?)
    ensures o.thrown.None? ==> o.tx == tx.(cursorOpen := true)
    ensures o.thrown.Some? ==> o.tx == tx
    ensures !tx.cursorOpen && s.flavor == Typed ==> o.thrown == s.db(Cursor(text))
    ensures !tx.cursorOpen && s.flavor == Flow && s.db(Cursor(text)).Some? ==>
      o.thrown == Some(Queryable.FailureError(s.debug, Text(text), None, s.db(Cursor(text)).value))
  {
    var c := Cursor(text);
    if tx.cursorOpen then Outcome(tx, [], Some(CursorInProgress))
    else if s.db(c).None? then Outcome(tx.(cursorOpen := true), [Issued(c)], None)
    else if s.flavor == Typed then Outcome(tx, [Issued(c)], s.db(c))
    else Outcome(tx, [Issued(c)], Some(QueryThrows(s, c, s.db(c).value)))
  }

  /** The lock events around a nested transaction: present only in the TypeScript version. */
  function LockEvent(s: Session, e: Event): seq<Event> {
    if s.flavor == Typed then [e] else []
  }

  /** Runs the steps of a callback in order, stopping at the first error thrown. */
  function RunSteps(s: Session, tx: Tx, steps: seq<Step>): (o: Outcome)
    ensures o.tx.counter >= tx.counter
    decreases steps, 0
  {
    if |steps| == 0 then Outcome(tx, [], None)
    else
      var o1 := RunStep(s, tx, steps[0]);
      if o1.thrown.Some? then o1
      else
        var o2 := RunSteps(s, o1.tx, steps[1..]);
        Outcome(o2.tx, o1.trace + o2.trace, o2.thrown)
  }

  /** Runs one step of a callback. */
  function RunStep(s: Session, tx: Tx, st: Step): (o: Outcome)
    ensures o.tx.counter >= tx.counter
    decreases st, 0
  {
    match st
    case Run(text) =>
      var r := TxQuery(s, tx, Statement(text));
      Outcome(tx, r.0, r.1)
    case Nested(body) => NestedTx(s, tx, body)
    case TryNested(body) => NestedTx(s, tx, body).(thrown := None)
    case Throw(e) => Outcome(tx, [], Some(e))
    case OpenInsertStream =>
      Outcome(tx.(streams := tx.streams + [false], inProgress := tx.inProgress + 1), [], None)
    case FinishInsertStream(k) =>
      if k < |tx.streams| && !tx.streams[k] then
        Outcome(tx.(streams := tx.streams[k := true], inProgress := tx.inProgress - 1), [], None)
      else Outcome(tx, [], None)
    case OpenCursor(text) => StreamQuery(s, tx, text)
    case CursorSignal => Outcome(tx.(cursorOpen := false), [], None)
  }

  /**
    `transaction(body)` on a transaction: take the lock (TypeScript only),
    pre-increment the counter to n, issue `SAVEPOINT savepoint<n>`, run the
    body in a fresh child transaction whose counter starts at n, check the
    child's unfinished insert streams, and issue `RELEASE SAVEPOINT`. A
    failure after the SAVEPOINT issues `ROLLBACK TO SAVEPOINT` and rethrows
    the original error (unless the rollback itself fails); a failure of the
    SAVEPOINT itself is not rolled back. The lock is given back on every
    path. The parent keeps only the incremented counter: the child's own
    counter, cursor and streams stay with the child.
   */
  function NestedTx(s: Session, tx: Tx, body: seq<Step>): (o: Outcome)
    ensures o.tx == tx.(counter := tx.counter + 1)
    decreases body, 2
  {
    var tx1 := tx.(counter := tx.counter + 1);
    var b := SavepointBlock(s, tx1, body);
    Outcome(tx1, LockEvent(s, LockAcquired) + b.trace + LockEvent(s, LockReleased), b.thrown)
  }

  /**
    What a nested transaction does while holding the lock, for the parent
    `tx1` whose counter is already incremented to n.
   */
  function SavepointBlock(s: Session, tx1: Tx, body: seq<Step>): (o: Outcome)
    decreases body, 1
  {
    var n := tx1.counter;
    var sp := TxQuery(s, tx1, Savepoint(n));
    if sp.1.Some? then Outcome(tx1, sp.0, sp.1)
    else
      var child := RunSteps(s, NewTx(Some(n)), body);
      var failed := if child.thrown.Some? then child.thrown else Validate(child.tx);
      var rel := if failed.None? then TxQuery(s, tx1, ReleaseSavepoint(n)) else ([], None);
      var error := if failed.Some? then failed else rel.1;
      if error.None? then Outcome(tx1, sp.0 + child.trace + rel.0, None)
      else
        var rb := TxQuery(s, tx1, RollbackToSavepoint(n));
        Outcome(tx1, sp.0 + child.trace + rel.0 + rb.0, if rb.1.Some? then rb.1 else error)
  }

  /** The child a nested transaction runs its body in. */
  function Child(s: Session, tx: Tx, body: seq<Step>): Outcome {
    RunSteps(s, NewTx(Some(tx.counter + 1)), body)
  }

  /**
    A nested transaction succeeds exactly when SAVEPOINT, the body, the
    leak check and RELEASE all succeed, and then its trace is the lock,
    SAVEPOINT, the body's events, RELEASE of the same savepoint, the lock.
   */
  lemma NestedSuccess(s: Session, tx: Tx, body: seq<Step>)
    requires !tx.cursorOpen
    ensures var n := tx.counter + 1; var child := Child(s, tx, body);
      && (NestedTx(s, tx, body).thrown.None? <==>
           s.db(Savepoint(n)).None? && child.thrown.None? && child.tx.inProgress <= 0 && s.db(ReleaseSavepoint(n)).None?)
      && (NestedTx(s, tx, body).thrown.None? ==>
           NestedTx(s, tx, body).trace
             == LockEvent(s, LockAcquired) + [Issued(Savepoint(n))] + child.trace
                + [Issued(ReleaseSavepoint(n))] + LockEvent(s, LockReleased))
  {
  }

  /**
    A failure after a successful SAVEPOINT (in the body, in the leak check
    or in RELEASE) ends with ROLLBACK TO the same savepoint and rethrows the
    original error when the rollback succeeds.
   */
  lemma NestedFailureRollsBack(s: Session, tx: Tx, body: seq<Step>)
    requires !tx.cursorOpen
    requires s.db(Savepoint(tx.counter + 1)).None?
    requires NestedTx(s, tx, body).thrown.Some?
    ensures var n := tx.counter + 1; var child := Child(s, tx, body); var o := NestedTx(s, tx, body);
      var reached := child.thrown.None? && child.tx.inProgress <= 0;
      && o.trace == LockEvent(s, LockAcquired) + [Issued(Savepoint(n))] + child.trace
           + (if reached then [Issued(ReleaseSavepoint(n))] else [])
           + [Issued(RollbackToSavepoint(n))] + LockEvent(s, LockReleased)
      && (s.db(RollbackToSavepoint(n)).None? && child.thrown.Some? ==> o.thrown == child.thrown)
      && (s.db(RollbackToSavepoint(n)).None? && !reached && child.thrown.None? ==>
            o.thrown == Some(UnfinishedInsertStreams(child.tx.inProgress)))
      && (s.db(RollbackToSavepoint(n)).None? && reached ==>
            s.db(ReleaseSavepoint(n)).Some? && o.thrown == Some(QueryThrows(s, ReleaseSavepoint(n), s.db(ReleaseSavepoint(n)).value)))
      && (s.db(RollbackToSavepoint(n)).Some? ==>
            o.thrown == Some(QueryThrows(s, RollbackToSavepoint(n), s.db(RollbackToSavepoint(n)).value)))
  {
  }

  /**
    A failing SAVEPOINT is not rolled back: the body never runs, the error is
    what `query` throws, and the counter keeps its increment.
   */
  lemma SavepointFailureNotRolledBack(s: Session, tx: Tx, body: seq<Step>)
    requires !tx.cursorOpen && s.db(Savepoint(tx.counter + 1)).Some?
    ensures var n := tx.counter + 1; var o := NestedTx(s, tx, body);
      && o.trace == LockEvent(s, LockAcquired) + [Issued(Savepoint(n))] + LockEvent(s, LockReleased)
      && o.thrown == Some(QueryThrows(s, Savepoint(n), s.db(Savepoint(n)).value))
      && o.tx.counter == n
  {
  }

  /**
    With a cursor open, a nested transaction is refused by the guard on its
    SAVEPOINT: nothing is issued, the lock is still given back, and the
    counter keeps its increment.
   */
  lemma NestedBlockedByCursor(s: Session, tx: Tx, body: seq<Step>)
    requires tx.cursorOpen
    ensures var o := NestedTx(s, tx, body);
      && o.trace == LockEvent(s, LockAcquired) + LockEvent(s, LockReleased)
      && o.thrown == Some(CursorInProgress)
      && o.tx.counter == tx.counter + 1
  {
  }

  /** A query is refused while a cursor is open and runs once a signal has cleared the flag. */
  lemma CursorGuard(s: Session, tx: Tx, text: string, cursor: string)
    requires !tx.cursorOpen && s.db(Cursor(cursor)).None? && s.db(Statement(text)).None?
    ensures RunSteps(s, tx, [OpenCursor(cursor), Run(text)])
      == Outcome(tx.(cursorOpen := true), [Issued(Cursor(cursor))], Some(CursorInProgress))
    ensures RunSteps(s, tx, [OpenCursor(cursor), OpenCursor(cursor)])
      == Outcome(tx.(cursorOpen := true), [Issued(Cursor(cursor))], Some(CursorInProgress))
    ensures RunSteps(s, tx, [OpenCursor(cursor), CursorSignal, Run(text)])
      == Outcome(tx, [Issued(Cursor(cursor)), Issued(Statement(text))], None)
  {
    var open := tx.(cursorOpen := true);
    assert RunStep(s, tx, OpenCursor(cursor)) == Outcome(open, [Issued(Cursor(cursor))], None);
    assert RunSteps(s, open, [Run(text)]) == Outcome(open, [], Some(CursorInProgress));
    assert RunSteps(s, open, [OpenCursor(cursor)]) == Outcome(open, [], Some(CursorInProgress));
    assert RunSteps(s, tx, [Run(text)]) == Outcome(tx, [Issued(Statement(text))], None) by {
      assert RunSteps(s, tx, []) == Outcome(tx, [], None);
    }
    assert RunSteps(s, open, [CursorSignal, Run(text)]) == Outcome(tx, [Issued(Statement(text))], None) by {
      assert [CursorSignal, Run(text)][1..] == [Run(text)];
    }
    assert [OpenCursor(cursor), CursorSignal, Run(text)][1..] == [CursorSignal, Run(text)];
  }

  /** Every step keeps the stream counter equal to the number of unfinished streams. */
  lemma {:induction false} StepCountsUnfinished(s: Session, tx: Tx, st: Step)
    requires CountsUnfinished(tx)
    ensures CountsUnfinished(RunStep(s, tx, st).tx)
  {
    match st
    case OpenInsertStream => UnfinishedAppend(tx.streams);
    case FinishInsertStream(k) =>
      if k < |tx.streams| && !tx.streams[k] {
        UnfinishedFinish(tx.streams, k);
      }
    case _ =>
  }

  /** A callback keeps the stream counter equal to the number of unfinished streams. */
  lemma {:induction false} StepsCountUnfinished(s: Session, tx: Tx, steps: seq<Step>)
    requires CountsUnfinished(tx)
    ensures CountsUnfinished(RunSteps(s, tx, steps).tx)
    decreases |steps|
  {
    if |steps| > 0 {
      StepCountsUnfinished(s, tx, steps[0]);
      var o1 := RunStep(s, tx, steps[0]);
      if o1.thrown.None? {
        StepsCountUnfinished(s, o1.tx, steps[1..]);
      }
    }
  }

  /**
    The leak check of a nested transaction fails exactly when some insert
    stream its body opened has not finished, and reports how many.
   */
  lemma LeakCheckCountsOpenStreams(s: Session, n: nat, body: seq<Step>)
    ensures var k := Unfinished(RunSteps(s, NewTx(Some(n)), body).tx.streams);
      Validate(RunSteps(s, NewTx(Some(n)), body).tx) == if k > 0 then Some(UnfinishedInsertStreams(k)) else None
  {
    StepsCountUnfinished(s, NewTx(Some(n)), body);
  }

  /** The number of the savepoint a savepoint command names. */
  predicate NamesSavepoint(e: Event) {
    e.Issued? && (e.command.Savepoint? || e.command.ReleaseSavepoint? || e.command.RollbackToSavepoint?)
  }

  /** Every savepoint named in the trace has a number above `c`. */
  predicate NamesAbove(trace: seq<Event>, c: nat) {
    forall i :: 0 <= i < |trace| && NamesSavepoint(trace[i]) ==> trace[i].command.n > c
  }

  lemma NamesAboveConcat(a: seq<Event>, b: seq<Event>, c: nat)
    requires NamesAbove(a, c) && NamesAbove(b, c)
    ensures NamesAbove(a + b, c)
  {
    forall i | 0 <= i < |a + b| && NamesSavepoint((a + b)[i])
      ensures (a + b)[i].command.n > c
    {
      if i >= |a| {
        assert (a + b)[i] == b[i - |a|];
      }
    }
  }

  lemma NamesAboveLower(trace: seq<Event>, c: nat, d: nat)
    requires NamesAbove(trace, d) && c <= d
    ensures NamesAbove(trace, c)
  {
  }

  /**
    Savepoint numbers are not depths, but they never collide with an
    enclosing open savepoint: every savepoint a callback names has a number
    above the counter of the transaction running it. In particular a nested
    transaction's own savepoint n = counter + 1 is above every savepoint of
    its ancestors' still-open transactions, and its children name only
    numbers above n.
   */
  lemma {:induction false} StepsNamesAbove(s: Session, tx: Tx, steps: seq<Step>)
    ensures NamesAbove(RunSteps(s, tx, steps).trace, tx.counter)
    decreases steps, 0
  {
    if |steps| > 0 {
      var o1 := RunStep(s, tx, steps[0]);
      StepNamesAbove(s, tx, steps[0]);
      if o1.thrown.None? {
        var o2 := RunSteps(s, o1.tx, steps[1..]);
        StepsNamesAbove(s, o1.tx, steps[1..]);
        NamesAboveLower(o2.trace, tx.counter, o1.tx.counter);
        NamesAboveConcat(o1.trace, o2.trace, tx.counter);
      }
    }
  }

  lemma {:induction false} StepNamesAbove(s: Session, tx: Tx, st: Step)
    ensures NamesAbove(RunStep(s, tx, st).trace, tx.counter)
    decreases st, 0
  {
    match st
    case Nested(body) => NestedNamesAbove(s, tx, body);
    case TryNested(body) => NestedNamesAbove(s, tx, body);
    case _ =>
  }

  /**
    A nested transaction names only savepoints above its parent's counter,
    and its body names only savepoints above its own, so no savepoint it
    opens shadows one that is still open around it.
   */
  lemma {:induction false} NestedNamesAbove(s: Session, tx: Tx, body: seq<Step>)
    ensures NamesAbove(NestedTx(s, tx, body).trace, tx.counter)
    ensures NamesAbove(Child(s, tx, body).trace, tx.counter + 1)
    decreases body, 2
  {
    var tx1 := tx.(counter := tx.counter + 1);
    BlockNamesAbove(s, tx1, body);
    var locks := LockEvent(s, LockAcquired) + LockEvent(s, LockReleased);
    assert NamesAbove(locks, tx.counter);
    NamesAboveConcat(LockEvent(s, LockAcquired), SavepointBlock(s, tx1, body).trace, tx.counter);
    NamesAboveConcat(LockEvent(s, LockAcquired) + SavepointBlock(s, tx1, body).trace, LockEvent(s, LockReleased), tx.counter);
  }

  lemma {:induction false} BlockNamesAbove(s: Session, tx1: Tx, body: seq<Step>)
    requires tx1.counter > 0
    ensures NamesAbove(SavepointBlock(s, tx1, body).trace, tx1.counter - 1)
    ensures NamesAbove(RunSteps(s, NewTx(Some(tx1.counter)), body).trace, tx1.counter)
    decreases body, 1
  {
    var n := tx1.counter;
    var c := n - 1;
    StepsNamesAbove(s, NewTx(Some(n)), body);
    var child := RunSteps(s, NewTx(Some(n)), body);
    NamesAboveLower(child.trace, c, n);
    var sp := TxQuery(s, tx1, Savepoint(n));
    assert NamesAbove(sp.0, c);
    if sp.1.None? {
      var failed := if child.thrown.Some? then child.thrown else Validate(child.tx);
      var rel := if failed.None? then TxQuery(s, tx1, ReleaseSavepoint(n)) else ([], None);
      var error := if failed.Some? then failed else rel.1;
      var rb := TxQuery(s, tx1, RollbackToSavepoint(n));
      assert NamesAbove(rel.0, c) && NamesAbove(rb.0, c);
      NamesAboveConcat(sp.0, child.trace, c);
      NamesAboveConcat(sp.0 + child.trace, rel.0, c);
      NamesAboveConcat(sp.0 + child.trace + rel.0, rb.0, c);
    }
  }

  /** Acquisitions of the nested-transaction lock minus releases. */
  function LockDepth(trace: seq<Event>): int {
    if |trace| == 0 then 0
    else (if trace[0].LockAcquired? then 1 else if trace[0].LockReleased? then -1 else 0) + LockDepth(trace[1..])
  }

  lemma {:induction false} LockDepthConcat(a: seq<Event>, b: seq<Event>)
    ensures LockDepth(a + b) == LockDepth(a) + LockDepth(b)
    decreases |a|
  {
    if |a| == 0 {
      assert a + b == b;
    } else {
      assert (a + b)[0] == a[0];
      assert (a + b)[1..] == a[1..] + b;
      LockDepthConcat(a[1..], b);
    }
  }

  /**
    A trace a `Transaction` can produce on its connection: statements and
    lock events only (never a pool checkout or release), the lock given back
    as often as it is taken, and no lock at all in the Flow version.
   */
  predicate Balanced(s: Session, trace: seq<Event>) {
    && LockDepth(trace) == 0
    && (forall i :: 0 <= i < |trace| ==> trace[i].Issued? || trace[i].LockAcquired? || trace[i].LockReleased?)
    && (s.flavor == Flow ==> forall i :: 0 <= i < |trace| ==> trace[i].Issued?)
  }

  lemma BalancedConcat(s: Session, a: seq<Event>, b: seq<Event>)
    requires Balanced(s, a) && Balanced(s, b)
    ensures Balanced(s, a + b)
  {
    LockDepthConcat(a, b);
    forall i | 0 <= i < |a + b|
      ensures (a + b)[i] == if i < |a| then a[i] else b[i - |a|]
    {
    }
  }

  lemma StatementsBalanced(s: Session, trace: seq<Event>)
    requires |trace| <= 1 && forall i :: 0 <= i < |trace| ==> trace[i].Issued?
    ensures Balanced(s, trace)
  {
    if |trace| == 1 {
      assert trace[1..] == [];
    }
  }

  /** The lock taken before and given back after a balanced trace leaves it balanced. */
  lemma LockAroundBalanced(s: Session, inner: seq<Event>)
    requires Balanced(s, inner)
    ensures Balanced(s, LockEvent(s, LockAcquired) + inner + LockEvent(s, LockReleased))
  {
    var acquire := LockEvent(s, LockAcquired);
    var release := LockEvent(s, LockReleased);
    LockDepthConcat(acquire, inner);
    LockDepthConcat(acquire + inner, release);
    if s.flavor == Typed {
      assert LockDepth(acquire) == 1 by { assert acquire[1..] == []; }
      assert LockDepth(release) == -1 by { assert release[1..] == []; }
    }
    var t := acquire + inner + release;
    forall i | 0 <= i < |t|
      ensures t[i] == if i < |acquire| then acquire[i] else if i < |acquire| + |inner| then inner[i - |acquire|] else release[i - |acquire| - |inner|]
    {
    }
  }

  /**
    The nested-transaction lock is given back on every path: every callback
    trace is balanced, and in the TypeScript version a nested transaction's
    trace opens with the acquisition and closes with the release.
   */
  lemma {:induction false} StepsBalanced(s: Session, tx: Tx, steps: seq<Step>)
    ensures Balanced(s, RunSteps(s, tx, steps).trace)
    decreases steps, 0
  {
    if |steps| == 0 {
      StatementsBalanced(s, []);
    } else {
      var o1 := RunStep(s, tx, steps[0]);
      StepBalanced(s, tx, steps[0]);
      if o1.thrown.None? {
        StepsBalanced(s, o1.tx, steps[1..]);
        BalancedConcat(s, o1.trace, RunSteps(s, o1.tx, steps[1..]).trace);
      }
    }
  }

  lemma {:induction false} StepBalanced(s: Session, tx: Tx, st: Step)
    ensures Balanced(s, RunStep(s, tx, st).trace)
    decreases st, 0
  {
    match st
    case Nested(body) => NestedBalanced(s, tx, body);
    case TryNested(body) => NestedBalanced(s, tx, body);
    case _ => StatementsBalanced(s, RunStep(s, tx, st).trace);
  }

  lemma {:induction false} NestedBalanced(s: Session, tx: Tx, body: seq<Step>)
    ensures Balanced(s, NestedTx(s, tx, body).trace)
    ensures s.flavor == Typed ==> var t := NestedTx(s, tx, body).trace;
      |t| >= 2 && t[0] == LockAcquired && t[|t| - 1] == LockReleased
    decreases body, 2
  {
    var tx1 := tx.(counter := tx.counter + 1);
    BlockBalanced(s, tx1, body);
    LockAroundBalanced(s, SavepointBlock(s, tx1, body).trace);
  }

  lemma {:induction false} BlockBalanced(s: Session, tx1: Tx, body: seq<Step>)
    ensures Balanced(s, SavepointBlock(s, tx1, body).trace)
    decreases body, 1
  {
    var n := tx1.counter;
    var sp := TxQuery(s, tx1, Savepoint(n));
    StatementsBalanced(s, sp.0);
    if sp.1.None? {
      var child := RunSteps(s, NewTx(Some(n)), body);
      StepsBalanced(s, NewTx(Some(n)), body);
      var failed := if child.thrown.Some? then child.thrown else Validate(child.tx);
      var rel := if failed.None? then TxQuery(s, tx1, ReleaseSavepoint(n)) else ([], None);
      var rb := TxQuery(s, tx1, RollbackToSavepoint(n));
      StatementsBalanced(s, rel.0);
      StatementsBalanced(s, rb.0);
      BalancedConcat(s, sp.0, child.trace);
      BalancedConcat(s, sp.0 + child.trace, rel.0);
      BalancedConcat(s, sp.0 + child.trace + rel.0, rb.0);
    }
  }

  /**
    The numbers count nested transactions started by one `Transaction`, not
    depth: a first child with a grandchild issues savepoint1 and savepoint2,
    and the second child of the same parent reuses savepoint2.
   */
  lemma SiblingsCountNotDepth(db: Command -> Option<Error>)
    requires forall c :: db(c).None?
    ensures var s := Session(Flow, false, db);
      RunSteps(s, NewTx(None), [Nested([Nested([])]), Nested([])]).trace
        == [Issued(Savepoint(1)), Issued(Savepoint(2)), Issued(ReleaseSavepoint(2)), Issued(ReleaseSavepoint(1)),
            Issued(Savepoint(2)), Issued(ReleaseSavepoint(2))]
  {
    var s := Session(Flow, false, db);
    var t0 := NewTx(None);
    var t1 := t0.(counter := 1);
    assert RunSteps(s, NewTx(Some(2)), []) == Outcome(NewTx(Some(2)), [], None);
    assert NestedTx(s, NewTx(Some(1)), []).trace == [Issued(Savepoint(2)), Issued(ReleaseSavepoint(2))];
    assert NestedTx(s, t1, []).trace == [Issued(Savepoint(2)), Issued(ReleaseSavepoint(2))];
    assert RunSteps(s, NewTx(Some(1)), [Nested([])]).trace == [Issued(Savepoint(2)), Issued(ReleaseSavepoint(2))] by {
      assert RunSteps(s, NestedTx(s, NewTx(Some(1)), []).tx, []).trace == [];
    }
    assert RunStep(s, t0, Nested([Nested([])])).trace
      == [Issued(Savepoint(1)), Issued(Savepoint(2)), Issued(ReleaseSavepoint(2)), Issued(ReleaseSavepoint(1))];
    assert RunSteps(s, t1, [Nested([])]).trace == [Issued(Savepoint(2)), Issued(ReleaseSavepoint(2))] by {
      assert RunSteps(s, t1.(counter := 2), []).trace == [];
    }
    assert [Nested([Nested([])]), Nested([])][1..] == [Nested([])];
  }

  /**
    An insert stream opened in a nested transaction and finished before it
    returns lets the savepoint be released; one left open makes the leak
    check fail with a count of 1, and the savepoint is rolled back.
   */
  lemma InsertStreamLeakCheck(db: Command -> Option<Error>)
    requires forall c :: db(c).None?
    ensures var s := Session(Typed, false, db);
      RunSteps(s, NewTx(None), [Nested([OpenInsertStream, FinishInsertStream(0)])])
        == Outcome(NewTx(Some(1)), [LockAcquired, Issued(Savepoint(1)), Issued(ReleaseSavepoint(1)), LockReleased], None)
    ensures var s := Session(Typed, false, db);
      RunSteps(s, NewTx(None), [Nested([OpenInsertStream])])
        == Outcome(NewTx(Some(1)), [LockAcquired, Issued(Savepoint(1)), Issued(RollbackToSavepoint(1)), LockReleased],
                   Some(UnfinishedInsertStreams(1)))
  {
    var s := Session(Typed, false, db);
    var t1 := NewTx(Some(1));
    assert NewTx(None).(counter := 1) == t1;
    FinishedStreamReleases(db);
    OpenStreamRollsBack(db);
    assert RunSteps(s, t1, []) == Outcome(t1, [], None);
  }

  /** The savepoint block around a body that finishes its stream: SAVEPOINT, then RELEASE. */
  lemma FinishedStreamReleases(db: Command -> Option<Error>)
    requires forall c :: db(c).None?
    ensures SavepointBlock(Session(Typed, false, db), NewTx(Some(1)), [OpenInsertStream, FinishInsertStream(0)])
      == Outcome(NewTx(Some(1)), [Issued(Savepoint(1)), Issued(ReleaseSavepoint(1))], None)
  {
    FinishedStreamBody(db);
    var s := Session(Typed, false, db);
    assert Validate(NewTx(Some(1)).(streams := [true])) == None;
    assert TxQuery(s, NewTx(Some(1)), Savepoint(1)) == ([Issued(Savepoint(1))], None);
    assert TxQuery(s, NewTx(Some(1)), ReleaseSavepoint(1)) == ([Issued(ReleaseSavepoint(1))], None);
  }

  /** The savepoint block around a body that leaves its stream open: SAVEPOINT, then ROLLBACK TO. */
  lemma OpenStreamRollsBack(db: Command -> Option<Error>)
    requires forall c :: db(c).None?
    ensures SavepointBlock(Session(Typed, false, db), NewTx(Some(1)), [OpenInsertStream])
      == Outcome(NewTx(Some(1)), [Issued(Savepoint(1)), Issued(RollbackToSavepoint(1))], Some(UnfinishedInsertStreams(1)))
  {
    OpenStreamBody(db);
    var s := Session(Typed, false, db);
    assert Validate(NewTx(Some(1)).(streams := [false], inProgress := 1)) == Some(UnfinishedInsertStreams(1));
    assert TxQuery(s, NewTx(Some(1)), Savepoint(1)) == ([Issued(Savepoint(1))], None);
    assert TxQuery(s, NewTx(Some(1)), RollbackToSavepoint(1)) == ([Issued(RollbackToSavepoint(1))], None);
  }

  /** Inside the child, opening and finishing a stream leaves it counted as finished. */
  lemma FinishedStreamBody(db: Command -> Option<Error>)
    ensures var s := Session(Typed, false, db);
      RunSteps(s, NewTx(Some(1)), [OpenInsertStream, FinishInsertStream(0)])
        == Outcome(NewTx(Some(1)).(streams := [true]), [], None)
  {
    var s := Session(Typed, false, db);
    var c1 := NewTx(Some(1));
    var withStream := c1.(streams := [false], inProgress := 1);
    assert [false][0 := true] == [true];
    assert RunSteps(s, withStream, [FinishInsertStream(0)]) == Outcome(c1.(streams := [true]), [], None) by {
      assert RunSteps(s, c1.(streams := [true]), []) == Outcome(c1.(streams := [true]), [], None);
    }
    assert [OpenInsertStream, FinishInsertStream(0)][1..] == [FinishInsertStream(0)];
  }

  /** Inside the child, a stream that is opened and never finished stays open. */
  lemma OpenStreamBody(db: Command -> Option<Error>)
    ensures var s := Session(Typed, false, db);
      RunSteps(s, NewTx(Some(1)), [OpenInsertStream])
        == Outcome(NewTx(Some(1)).(streams := [false], inProgress := 1), [], None)
  {
    var s := Session(Typed, false, db);
    var withStream := NewTx(Some(1)).(streams := [false], inProgress := 1);
    assert RunSteps(s, withStream, []) == Outcome(withStream, [], None);
  }
}
