/**
  The two `Client` methods that own a pooled connection (`src/Client.ts`
  and its Flow twin `src/Client.js`): `transaction`, which wraps a callback
  in BEGIN and COMMIT or ROLLBACK and gives the connection back to the
  pool, and `streamQuery`, which lends a connection to a read cursor until
  the cursor's first `error`, `end` or `close`.

  Each comes twice: as written, and corrected where the code can keep a
  connection checked out forever (see the findings in the README).
 */
module Clients {
  import opened Wrappers
  import opened Errors
  import opened Transactions

  /**
    The part of `transaction` inside the `try`, after the checkout: BEGIN on
    the raw connection, the callback in a fresh root `Transaction` (counter
    0, sharing the debug flag), the leak check and COMMIT. Returns the events
    and the first error thrown, if any. BEGIN, COMMIT and ROLLBACK go to the
    raw connection, so their errors are the driver's own.
   */
  function Attempt(s: Session, body: seq<Step>): (r: (seq<Event>, Option<Error>))
  {
    if s.db(Begin).Some? then ([Issued(Begin)], s.db(Begin))
    else
      var o := RunSteps(s, NewTx(None), body);
      var failed := if o.thrown.Some? then o.thrown else Validate(o.tx);
      if failed.Some? then ([Issued(Begin)] + o.trace, failed)
      else ([Issued(Begin)] + o.trace + [Issued(Commit)], s.db(Commit))
  }

  /** The callback run as the root transaction. */
  function Root(s: Session, body: seq<Step>): Outcome {
    RunSteps(s, NewTx(None), body)
  }

  /**
    `transaction` as written. A failed checkout throws before anything else.
    Success releases the connection with no argument; a failure issues
    ROLLBACK, releases with the error and rethrows it. When ROLLBACK itself
    fails, its error escapes the `catch` block before `release` is reached.
   */
  function TransactionAsWritten(s: Session, checkout: Option<Error>, body: seq<Step>): (r: (seq<Event>, Option<Error>))
    ensures checkout.Some? ==> r == ([], checkout)
    ensures checkout.None? && s.db(Rollback).Some? && Attempt(s, body).1.Some? ==>
      r.1 == s.db(Rollback) && |r.0| >= 1 && r.0[|r.0| - 1] == Issued(Rollback)
  {
    if checkout.Some? then ([], checkout)
    else
      var a := Attempt(s, body);
      if a.1.None? then ([CheckedOut] + a.0 + [Released(None)], None)
      else if s.db(Rollback).Some? then ([CheckedOut] + a.0 + [Issued(Rollback)], s.db(Rollback))
      else ([CheckedOut] + a.0 + [Issued(Rollback), Released(a.1)], a.1)
  }

  /**
    `transaction` with the release moved where every exit path reaches it:
    when ROLLBACK fails, the connection is still released with the original
    error (so the pool discards it) and the rollback's error is thrown.
   */
  function Transaction(s: Session, checkout: Option<Error>, body: seq<Step>): (r: (seq<Event>, Option<Error>))
    ensures checkout.Some? ==> r == ([], checkout)
    ensures checkout.None? ==> |r.0| >= 2 && r.0[0] == CheckedOut && r.0[|r.0| - 1] == Released(Attempt(s, body).1)
    ensures checkout.None? && Attempt(s, body).1.Some? ==> r.1.Some? && r.0[|r.0| - 2] == Issued(Rollback)
  {
    if checkout.Some? then ([], checkout)
    else
      var a := Attempt(s, body);
      if a.1.None? then ([CheckedOut] + a.0 + [Released(None)], None)
      else ([CheckedOut] + a.0 + [Issued(Rollback), Released(a.1)], if s.db(Rollback).Some? then s.db(Rollback) else a.1)
  }

  /** The number of pool releases in a trace. */
  function Releases(trace: seq<Event>): nat {
    if |trace| == 0 then 0 else (if trace[0].Released? then 1 else 0) + Releases(trace[1..])
  }

  /** The number of pool checkouts in a trace. */
  function Checkouts(trace: seq<Event>): nat {
    if |trace| == 0 then 0 else (if trace[0].CheckedOut? then 1 else 0) + Checkouts(trace[1..])
  }

  lemma {:induction false} CountsConcat(a: seq<Event>, b: seq<Event>)
    ensures Releases(a + b) == Releases(a) + Releases(b)
    ensures Checkouts(a + b) == Checkouts(a) + Checkouts(b)
    decreases |a|
  {
    if |a| == 0 {
      assert a + b == b;
    } else {
      assert (a + b)[0] == a[0];
      assert (a + b)[1..] == a[1..] + b;
      CountsConcat(a[1..], b);
    }
  }

  /** A trace of a `Transaction` contains neither checkouts nor releases. */
  lemma {:induction false} NoPoolEvents(trace: seq<Event>)
    requires forall i :: 0 <= i < |trace| ==> trace[i].Issued? || trace[i].LockAcquired? || trace[i].LockReleased?
    ensures Releases(trace) == 0 && Checkouts(trace) == 0
    decreases |trace|
  {
    if |trace| > 0 {
      NoPoolEvents(trace[1..]);
    }
  }

  lemma AttemptHasNoPoolEvents(s: Session, body: seq<Step>)
    ensures Releases(Attempt(s, body).0) == 0 && Checkouts(Attempt(s, body).0) == 0
  {
    var o := RunSteps(s, NewTx(None), body);
    StepsBalanced(s, NewTx(None), body);
    NoPoolEvents(o.trace);
    NoPoolEvents([Issued(Begin)]);
    NoPoolEvents([Issued(Commit)]);
    CountsConcat([Issued(Begin)], o.trace);
    CountsConcat([Issued(Begin)] + o.trace, [Issued(Commit)]);
  }

  /**
    The corrected `transaction` checks out one connection and gives it back
    exactly once, as its last event, on every path past the checkout: with
    no argument on success and with the error otherwise. Nested
    transactions reuse that connection. A failed checkout leaves nothing to
    release.
   */
  lemma TransactionReleasesOnce(s: Session, checkout: Option<Error>, body: seq<Step>)
    ensures var r := Transaction(s, checkout, body);
      && (checkout.Some? ==> r.0 == [] && r.1 == checkout)
      && (checkout.None? ==>
           && Checkouts(r.0) == 1 && r.0[0] == CheckedOut
           && Releases(r.0) == 1 && r.0[|r.0| - 1] == Released(Attempt(s, body).1))
  {
    if checkout.None? {
      var a := Attempt(s, body);
      AttemptHasNoPoolEvents(s, body);
      var tail := if a.1.None? then [Released(None)] else [Issued(Rollback), Released(a.1)];
      assert Releases(tail) == 1 && Checkouts(tail) == 0 by {
        if a.1.Some? {
          assert tail[1..][1..] == [];
        } else {
          assert tail[1..] == [];
        }
      }
      assert Releases([CheckedOut]) == 0 && Checkouts([CheckedOut]) == 1;
      CountsConcat([CheckedOut], a.0);
      CountsConcat([CheckedOut] + a.0, tail);
      assert Transaction(s, checkout, body).0 == [CheckedOut] + a.0 + tail;
    }
  }

  /**
    The corrected `transaction` commits exactly when BEGIN, the callback,
    the leak check and COMMIT all succeed, and its trace is then the
    checkout, BEGIN, the callback's statements, COMMIT and the release.
    BEGIN is the first statement on every path. Otherwise ROLLBACK follows
    the last statement that ran, and the error thrown (and passed to the
    release) is the original one, whether it came from BEGIN, the callback,
    the leak check or COMMIT, unless ROLLBACK fails.
   */
  lemma TransactionCommitsOrRollsBack(s: Session, body: seq<Step>)
    ensures var r := Transaction(s, None, body); var o := Root(s, body);
      var ok := s.db(Begin).None? && o.thrown.None? && o.tx.inProgress <= 0 && s.db(Commit).None?;
      && (r.1.None? <==> ok)
      && (ok ==> r.0 == [CheckedOut, Issued(Begin)] + o.trace + [Issued(Commit), Released(None)])
      && (!ok ==> r.0[|r.0| - 2] == Issued(Rollback))
      && (!ok && s.db(Rollback).None? && s.db(Begin).None? && o.thrown.Some? ==> r.1 == o.thrown)
      && (!ok && s.db(Rollback).None? && s.db(Begin).None? && o.thrown.None? && o.tx.inProgress > 0 ==>
            r.1 == Some(UnfinishedInsertStreams(o.tx.inProgress)))
      && (!ok && s.db(Rollback).Some? ==> r.1 == s.db(Rollback))
      && |r.0| >= 3 && r.0[1] == Issued(Begin)
      && (s.db(Begin).Some? && s.db(Rollback).None? ==>
            r.1 == s.db(Begin) && r.0 == [CheckedOut, Issued(Begin), Issued(Rollback), Released(s.db(Begin))])
      && (s.db(Begin).None? && o.thrown.None? && o.tx.inProgress <= 0 && s.db(Commit).Some? && s.db(Rollback).None? ==>
            r.1 == s.db(Commit)
            && r.0 == [CheckedOut, Issued(Begin)] + o.trace + [Issued(Commit), Issued(Rollback), Released(s.db(Commit))])
  {
  }

  /** Where ROLLBACK succeeds (or is never needed), the code as written and the corrected one agree. */
  lemma AgreeUnlessRollbackFails(s: Session, checkout: Option<Error>, body: seq<Step>)
    requires s.db(Rollback).None? || checkout.Some? || Attempt(s, body).1.None?
    ensures TransactionAsWritten(s, checkout, body) == Transaction(s, checkout, body)
  {
  }

  /**
    The as-written `transaction` keeps the connection when ROLLBACK fails:
    a callback that throws on a database that rejects ROLLBACK yields
    checkout, BEGIN, ROLLBACK and no release.
   */
  lemma RollbackFailureLeaksConnection(e: Error, lost: Error)
    ensures var s := Session(Typed, false, (c: Command) => if c == Rollback then Some(lost) else None);
      && TransactionAsWritten(s, None, [Throw(e)]) == ([CheckedOut, Issued(Begin), Issued(Rollback)], Some(lost))
      && Releases(TransactionAsWritten(s, None, [Throw(e)]).0) == 0
  {
    var s := Session(Typed, false, (c: Command) => if c == Rollback then Some(lost) else None);
    assert s.db(Begin) == None && s.db(Rollback) == Some(lost);
    assert RunSteps(s, NewTx(None), [Throw(e)]) == Outcome(NewTx(None), [], Some(e));
    assert [Issued(Begin)] + [] == [Issued(Begin)];
    assert Attempt(s, [Throw(e)]) == ([Issued(Begin)], Some(e));
    var t := [CheckedOut, Issued(Begin), Issued(Rollback)];
    assert [CheckedOut] + [Issued(Begin)] + [Issued(Rollback)] == t;
    assert t[1..][1..][1..] == [];
  }

  /**
    In general, the as-written `transaction` never releases the connection
    when both the attempt and ROLLBACK fail, though it did check it out.
   */
  lemma RollbackFailureNeverReleases(s: Session, body: seq<Step>)
    requires Attempt(s, body).1.Some? && s.db(Rollback).Some?
    ensures Checkouts(TransactionAsWritten(s, None, body).0) == 1
    ensures Releases(TransactionAsWritten(s, None, body).0) == 0
  {
    var a := Attempt(s, body);
    AttemptHasNoPoolEvents(s, body);
    assert Releases([Issued(Rollback)]) == 0 && Checkouts([Issued(Rollback)]) == 0;
    assert Releases([CheckedOut]) == 0 && Checkouts([CheckedOut]) == 1;
    CountsConcat([CheckedOut], a.0);
    CountsConcat([CheckedOut] + a.0, [Issued(Rollback)]);
  }

  /** An event of the cursor a client lent its connection to: `error(e)`, `end` or `close`. */
  datatype Signal = ErrorSignal(e: Error) | End | Close

  /** The argument the release listener receives: the error, or nothing for `end` and `close`. */
  function SignalError(sig: Signal): Option<Error> {
    if sig.ErrorSignal? then Some(sig.e) else None
  }

  /**
    A connection lent to a cursor: whether it was checked out, whether the
    release listener is still attached, and the arguments of the releases
    so far.
   */
  datatype Lease = Lease(checkedOut: bool, listening: bool, releases: seq<Option<Error>>)

  /**
    `streamQuery` as written, up to returning the stream: a failed checkout
    throws; a submission that throws synchronously throws too, before any
    listener is attached, so the connection is never released; otherwise
    the listener is attached to all three events.
   */
  function StreamQueryAsWritten(checkout: Option<Error>, submit: Option<Error>): (r: (Lease, Option<Error>))
    ensures checkout.Some? ==> r == (Lease(false, false, []), checkout)
    ensures checkout.None? && submit.None? ==> r == (Lease(true, true, []), None)
    ensures checkout.None? && submit.Some? ==> r.1 == submit && r.0.checkedOut && !r.0.listening && r.0.releases == []
  {
    if checkout.Some? then (Lease(false, false, []), checkout)
    else if submit.Some? then (Lease(true, false, []), submit)
    else (Lease(true, true, []), None)
  }

  /**
    `streamQuery` corrected: a submission that throws releases the
    connection with that error before rethrowing it.
   */
  function StreamQuery(checkout: Option<Error>, submit: Option<Error>): (r: (Lease, Option<Error>))
    ensures r.0.checkedOut <==> checkout.None?
    ensures r.1 == if checkout.Some? then checkout else submit
    ensures checkout.None? ==> (r.0.listening && r.0.releases == []) || (!r.0.listening && r.0.releases == [submit])
  {
    if checkout.Some? then (Lease(false, false, []), checkout)
    else if submit.Some? then (Lease(true, false, [submit]), submit)
    else (Lease(true, true, []), None)
  }

  /**
    One cursor event: the listener, while attached, detaches itself from all
    three events and releases the connection with the event's error.
   */
  function Signalled(l: Lease, sig: Signal): (r: Lease)
  {
    if l.listening then Lease(l.checkedOut, false, l.releases + [SignalError(sig)]) else l
  }

  /** A sequence of cursor events, in order. */
  function AllSignalled(l: Lease, sigs: seq<Signal>): (r: Lease)
    ensures r.checkedOut == l.checkedOut
    decreases |sigs|
  {
    if |sigs| == 0 then l else AllSignalled(Signalled(l, sigs[0]), sigs[1..])
  }

  /**
    The release listener releases exactly once, on the first cursor event,
    with that event's error; later events release nothing.
   */
  lemma {:induction false} ReleasedOnFirstSignal(l: Lease, sigs: seq<Signal>)
    requires l.listening && l.releases == []
    ensures var r := AllSignalled(l, sigs);
      && |r.releases| <= 1
      && (|r.releases| == 1 <==> |sigs| > 0)
      && (|sigs| > 0 ==> r.releases == [SignalError(sigs[0])] && !r.listening)
  {
    if |sigs| > 0 {
      IgnoredOnceDetached(Signalled(l, sigs[0]), sigs[1..]);
    }
  }

  /** A detached listener ignores every later event. */
  lemma {:induction false} IgnoredOnceDetached(l: Lease, sigs: seq<Signal>)
    requires !l.listening
    ensures AllSignalled(l, sigs) == l
    decreases |sigs|
  {
    if |sigs| > 0 {
      IgnoredOnceDetached(Signalled(l, sigs[0]), sigs[1..]);
    }
  }

  /**
    The corrected `streamQuery` never keeps a connection: once the cursor
    has signalled (or the submission has thrown), a checked-out connection
    has been released exactly once, with the error that ended it.
   */
  lemma StreamQueryReleasesOnce(checkout: Option<Error>, submit: Option<Error>, sigs: seq<Signal>)
    requires checkout.None? && submit.None? ==> |sigs| > 0
    ensures var r := AllSignalled(StreamQuery(checkout, submit).0, sigs);
      && (r.checkedOut <==> checkout.None?)
      && (r.checkedOut ==> |r.releases| == 1)
      && (checkout.None? && submit.Some? ==> r.releases == [submit])
      && (checkout.None? && submit.None? ==> r.releases == [SignalError(sigs[0])])
  {
    var l := StreamQuery(checkout, submit).0;
    if l.listening {
      ReleasedOnFirstSignal(l, sigs);
    } else {
      IgnoredOnceDetached(l, sigs);
    }
  }

  /**
    The as-written `streamQuery` keeps the connection when the submission
    throws: whatever happens afterwards, nothing releases it.
   */
  lemma SubmitFailureLeaksConnection(e: Error, sigs: seq<Signal>)
    ensures var r := AllSignalled(StreamQueryAsWritten(None, Some(e)).0, sigs);
      r.checkedOut && r.releases == []
  {
    IgnoredOnceDetached(StreamQueryAsWritten(None, Some(e)).0, sigs);
  }

  /** Apart from that path the two agree. */
  lemma StreamQueryAgreesUnlessSubmitThrows(checkout: Option<Error>, submit: Option<Error>)
    requires checkout.Some? || submit.None?
    ensures StreamQueryAsWritten(checkout, submit) == StreamQuery(checkout, submit)
  {
  }
}
