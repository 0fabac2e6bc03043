/**
  `DatabaseInsertStream` of `src/streams/DatabaseInsertStream.ts` (the Flow
  file `src/streams/DatabaseInsertStream.js` is the same adapter): a
  writable object stream over the older insert collector. Every write
  records the batch promise `add` returns; when the number of writes since
  the last wait reaches the high-water mark, the write waits for all
  recorded promises (`Promise.all`) and starts a fresh set. Ending the
  stream flushes, waits for everything, and emits `inserting_finished` with
  the inserted count, or an error.

  A recorded promise is the handle of the batch it belongs to; a set of
  handles is the `Set` of promises (one batch's promise is recorded once).
  The promise of the final `flush()` never rejects and settles with the
  batch it flushed, whose handle is already recorded (the buffered rows were
  written since the last wait), so waiting for the recorded handles is
  waiting for it too.
 */
module InsertStream {
  import opened Wrappers
  import opened Values
  import opened Errors
  import L = LegacyInsertCollector

  /**
    Where the stream stands: accepting writes; a write waiting for a set of
    batches; failed by a write; `_final` waiting for a set of batches;
    finished; failed at the end.
   */
  datatype Phase =
    | Writing
    | Awaiting(handles: set<nat>)
    | WriteFailed(error: Error)
    | Ending(handles: set<nat>)
    | Finished
    | FinalFailed(error: Error)

  /** What the stream emits to its listeners. */
  datatype Emitted = InsertingFinished(insertedRowCount: nat) | StreamError(error: Error)

  /** The adapter: the collector, the high-water mark, `itemsCount`, `promises`, the phase and what it emitted. */
  datatype Stream = Stream(
    collector: L.Collector,
    highWaterMark: int,
    itemsCount: nat,
    promises: set<nat>,
    phase: Phase,
    emitted: seq<Emitted>)

  /** The constructor: the high-water mark is the collector's batch size. */
  function New(c: L.Collector): (s: Stream)
    ensures s.highWaterMark == c.batchSize
    ensures s.collector == c && s.itemsCount == 0 && s.promises == {} && s.phase == Writing && s.emitted == []
  {
    Stream(c, c.batchSize, 0, {}, Writing, [])
  }

  /**
    `_write`: `add` the row and record its batch's promise; count the write.
    At the high-water mark the recorded promises are handed to the wait and
    both the counter and the set start afresh.
   */
  function Write(s: Stream, row: Row): (r: Stream)
    requires s.phase.Writing?
    ensures var (c1, h) := L.Add(s.collector, row);
      && r.collector == c1
      && (s.itemsCount + 1 < s.highWaterMark ==>
            r.phase == Writing && r.itemsCount == s.itemsCount + 1 && r.promises == s.promises + {h})
      && (s.itemsCount + 1 >= s.highWaterMark ==>
            r.phase == Awaiting(s.promises + {h}) && r.itemsCount == 0 && r.promises == {})
    ensures r.highWaterMark == s.highWaterMark && r.emitted == s.emitted
  {
    var (c1, h) := L.Add(s.collector, row);
    var recorded := s.promises + {h};
    if s.itemsCount + 1 >= s.highWaterMark then
      s.(collector := c1, itemsCount := 0, promises := {}, phase := Awaiting(recorded))
    else
      s.(collector := c1, itemsCount := s.itemsCount + 1, promises := recorded)
  }

  /** `end()` reaches `_final`: flush, then wait for every recorded promise. */
  function End(s: Stream): (r: Stream)
    requires s.phase.Writing?
    ensures r.collector == L.Flush(s.collector) && r.collector.rows == []
    ensures r.phase == Ending(s.promises) && r.itemsCount == 0 && r.promises == {}
    ensures r.highWaterMark == s.highWaterMark && r.emitted == s.emitted
  {
    s.(collector := L.Flush(s.collector), itemsCount := 0, promises := {}, phase := Ending(s.promises))
  }

  /** The handles the stream is waiting for, or is recording while it accepts writes. */
  function Watched(s: Stream): set<nat> {
    match s.phase
    case Writing => s.promises
    case Awaiting(hs) => hs
    case Ending(hs) => hs
    case _ => {}
  }

  /** `Promise.all` can resolve: every awaited batch has resolved. */
  predicate AllFulfilled(c: L.Collector, hs: set<nat>) {
    forall h :: h in hs ==> h < |c.batches| && c.batches[h].state.Fulfilled?
  }

  /** `Promise.all` can reject with batch `h`'s error: it is awaited and has failed. */
  predicate FailedIn(c: L.Collector, hs: set<nat>, h: nat) {
    h in hs && h < |c.batches| && c.batches[h].state.Failed?
  }

  predicate Waiting(s: Stream) {
    s.phase.Awaiting? || s.phase.Ending?
  }

  /**
    The wait resolves: a waiting write is acknowledged and writing goes on;
    `_final` emits `inserting_finished` with the inserted count.
   */
  function Resolve(s: Stream): (r: Stream)
    requires Waiting(s) && AllFulfilled(s.collector, s.phase.handles)
    ensures r.collector == s.collector
    ensures s.phase.Awaiting? ==> r.phase == Writing && r.emitted == s.emitted
    ensures s.phase.Ending? ==> r.phase == Finished && r.emitted == s.emitted + [InsertingFinished(s.collector.count)]
  {
    if s.phase.Awaiting? then s.(phase := Writing)
    else s.(phase := Finished, emitted := s.emitted + [InsertingFinished(s.collector.count)])
  }

  /**
    The wait rejects with the error of a failed batch it awaits; which one,
    when several have failed, depends on timing and is the event's choice.
    The waiting write or `_final` fails the stream with it.
   */
  function Reject(s: Stream, h: nat): (r: Stream)
    requires Waiting(s) && FailedIn(s.collector, s.phase.handles, h)
    ensures var e := s.collector.batches[h].state.error;
      && r.collector == s.collector
      && (s.phase.Awaiting? ==> r.phase == WriteFailed(e))
      && (s.phase.Ending? ==> r.phase == FinalFailed(e))
      && r.emitted == s.emitted + [StreamError(e)]
  {
    var e := s.collector.batches[h].state.error;
    s.(phase := if s.phase.Awaiting? then WriteFailed(e) else FinalFailed(e), emitted := s.emitted + [StreamError(e)])
  }

  /** An event of the stream's life. */
  datatype Event =
    | WriteRow(row: Row)
    | EndCall
    | TickNext
    | AnswerBatch(id: nat, outcome: Result<nat, Error>)
    | AllResolved
    | OneRejected(handle: nat)

  /** The collector's own step, whatever the stream's phase. */
  function Collector(s: Stream, e: L.Event): Stream {
    s.(collector := L.Apply(s.collector, e))
  }

  function Apply(s: Stream, e: Event): Stream {
    match e
    case WriteRow(row) => if s.phase.Writing? then Write(s, row) else s
    case EndCall => if s.phase.Writing? then End(s) else s
    case TickNext => Collector(s, L.TickNext)
    case AnswerBatch(id, o) => Collector(s, L.CompleteBatch(id, o))
    case AllResolved => if Waiting(s) && AllFulfilled(s.collector, s.phase.handles) then Resolve(s) else s
    case OneRejected(h) => if Waiting(s) && FailedIn(s.collector, s.phase.handles, h) then Reject(s, h) else s
  }

  function Run(s: Stream, es: seq<Event>): Stream
    decreases |es|
  {
    if |es| == 0 then s else Run(Apply(s, es[0]), es[1..])
  }

  /** Every flushed batch has resolved. */
  predicate AllBatchesFulfilled(c: L.Collector) {
    forall id :: 0 <= id < |c.batches| ==> c.batches[id].state.Fulfilled?
  }

  /**
    The stream's invariant. While it is alive, every batch the stream is not
    watching has resolved, and the rows in the buffer belong to a watched
    handle; once `_final` runs the buffer is empty; a finished stream has
    seen every batch resolve; and at most one event is emitted:
    `inserting_finished` with the final count, or the error.
   */
  predicate Inv(s: Stream) {
    var c := s.collector;
    && L.Inv(c)
    && s.highWaterMark == c.batchSize
    && ((s.phase.Writing? || Waiting(s)) ==>
          && (forall h :: h in Watched(s) ==> h <= |c.batches|)
          && (c.rows != [] ==> |c.batches| in Watched(s))
          && (forall id :: 0 <= id < |c.batches| && id !in Watched(s) ==> c.batches[id].state.Fulfilled?))
    && (Waiting(s) ==> s.promises == {})
    && ((s.phase.Ending? || s.phase.Finished?) ==> c.rows == [])
    && (s.phase.Finished? ==> AllBatchesFulfilled(c) && s.emitted == [InsertingFinished(c.count)])
    && ((s.phase.Writing? || Waiting(s)) ==> s.emitted == [])
    && ((s.phase.WriteFailed? || s.phase.FinalFailed?) ==> s.emitted == [StreamError(s.phase.error)])
  }

  lemma NewInv(c: L.Collector)
    requires L.Inv(c) && c.rows == [] && AllBatchesFulfilled(c)
    ensures Inv(New(c))
  {
  }

  lemma {:induction false} WriteInv(s: Stream, row: Row)
    requires Inv(s) && s.phase.Writing?
    ensures Inv(Write(s, row))
  {
    L.AddInv(s.collector, row);
  }

  lemma {:induction false} EndInv(s: Stream)
    requires Inv(s) && s.phase.Writing?
    ensures Inv(End(s))
  {
    L.FlushInv(s.collector);
  }

  lemma {:induction false} TickInv(s: Stream)
    requires Inv(s) && s.collector.ticks > 0
    ensures Inv(Collector(s, L.TickNext))
  {
    var c := s.collector;
    var r := Collector(s, L.TickNext);
    L.ApplyInv(c, L.TickNext);
    if c.rows != [] {
      assert r.collector.batches == c.batches + [L.Batch(c.rows, c.suffix, L.Pending)];
    } else {
      assert r.collector.batches == c.batches;
    }
  }

  lemma {:induction false} AnswerInv(s: Stream, id: nat, outcome: Result<nat, Error>)
    requires Inv(s) && L.CanComplete(s.collector, id)
    ensures Inv(Collector(s, L.CompleteBatch(id, outcome)))
  {
    L.ApplyInv(s.collector, L.CompleteBatch(id, outcome));
  }

  lemma {:induction false} ResolveInv(s: Stream)
    requires Inv(s) && Waiting(s) && AllFulfilled(s.collector, s.phase.handles)
    ensures Inv(Resolve(s))
  {
  }

  lemma {:induction false} RejectInv(s: Stream, h: nat)
    requires Inv(s) && Waiting(s) && FailedIn(s.collector, s.phase.handles, h)
    ensures Inv(Reject(s, h))
  {
  }

  lemma {:induction false} ApplyInv(s: Stream, e: Event)
    requires Inv(s)
    ensures Inv(Apply(s, e))
  {
    match e
    case WriteRow(row) => if s.phase.Writing? { WriteInv(s, row); }
    case EndCall => if s.phase.Writing? { EndInv(s); }
    case TickNext => if s.collector.ticks > 0 { TickInv(s); }
    case AnswerBatch(id, o) => if L.CanComplete(s.collector, id) { AnswerInv(s, id, o); }
    case AllResolved => if Waiting(s) && AllFulfilled(s.collector, s.phase.handles) { ResolveInv(s); }
    case OneRejected(h) => if Waiting(s) && FailedIn(s.collector, s.phase.handles, h) { RejectInv(s, h); }
  }

  lemma {:induction false} RunInv(s: Stream, es: seq<Event>)
    requires Inv(s)
    ensures Inv(Run(s, es))
    decreases |es|
  {
    if |es| > 0 {
      ApplyInv(s, es[0]);
      RunInv(Apply(s, es[0]), es[1..]);
    }
  }

  /**
    What listeners see, over any run from a new stream over a fresh
    collector (as `insertStream` configures one): at most one event; `inserting_finished` only after every
    batch resolved, carrying the sum of the row counts the server reported;
    a failure at the end emits the error and no `inserting_finished`.
   */
  lemma {:induction false} EmitsOnce(c: L.Collector, es: seq<Event>)
    requires L.Inv(c) && c.rows == [] && c.batches == []
    ensures var s := Run(New(c), es);
      && |s.emitted| <= 1
      && (forall n :: InsertingFinished(n) in s.emitted ==>
            s.phase.Finished? && AllBatchesFulfilled(s.collector) && n == L.SumFulfilled(s.collector.batches))
      && (s.phase.FinalFailed? ==> s.emitted == [StreamError(s.phase.error)])
  {
    NewInv(c);
    RunInv(New(c), es);
  }

  /** The stream after two writes with batch size 2: one batch sent, the second write waiting for it. */
  function WaitingForFirstBatch(table: string, r1: Row, r2: Row): Stream {
    Stream(L.Collector(table, 2, "", [], [L.Batch([r1, r2], "", L.Pending)], 1, 0), 2, 0, {}, Awaiting({0}), [])
  }

  /** Batch size 2: the second write fills the batch, which is sent, and the write waits for it. */
  lemma {:induction false} SecondWriteWaits(table: string, r1: Row, r2: Row)
    ensures var waiting := Run(New(L.SetBatchSize(L.New(table), 2)), [WriteRow(r1), WriteRow(r2)]);
      && waiting == WaitingForFirstBatch(table, r1, r2)
      && waiting.phase == Awaiting({0})
      && L.Sent(waiting.collector) == [InsertRows(table, [r1, r2], "")]
  {
    var s := New(L.SetBatchSize(L.New(table), 2));
    var b := L.Batch([r1, r2], "", L.Pending);
    var s1 := Stream(L.Collector(table, 2, "", [r1], [], 1, 0), 2, 1, {0}, Writing, []);
    var s2 := WaitingForFirstBatch(table, r1, r2);
    assert Apply(s, WriteRow(r1)) == s1 by { assert [] + [r1] == [r1]; assert {} + {0} == {0}; }
    assert Apply(s1, WriteRow(r2)) == s2 by { assert [r1] + [r2] == [r1, r2]; assert [] + [b] == [b]; }
    var w := [WriteRow(r1), WriteRow(r2)];
    assert Run(s, w) == Run(s1, w[1..]);
    assert Run(s1, w[1..]) == Run(s2, []);
  }

  /** When the server takes both rows, the wait resolves and ending emits `inserting_finished` with 2. */
  lemma {:induction false} WaitResolvesThenFinishes(table: string, r1: Row, r2: Row)
    ensures Run(WaitingForFirstBatch(table, r1, r2), [AnswerBatch(0, Ok(2)), AllResolved, EndCall, AllResolved]).emitted
      == [InsertingFinished(2)]
  {
    var s2 := WaitingForFirstBatch(table, r1, r2);
    var ok := L.Batch([r1, r2], "", L.Fulfilled(2));
    var s3 := Stream(L.Collector(table, 2, "", [], [ok], 1, 2), 2, 0, {}, Awaiting({0}), []);
    var s4 := s3.(phase := Writing);
    var s5 := s3.(phase := Ending({}));
    var s6 := s3.(phase := Finished, emitted := [InsertingFinished(2)]);
    assert Apply(s2, AnswerBatch(0, Ok(2))) == s3 by { assert s2.collector.batches[0 := ok] == [ok]; }
    assert Apply(s3, AllResolved) == s4;
    assert Apply(s4, EndCall) == s5;
    assert Apply(s5, AllResolved) == s6 by { assert [] + [InsertingFinished(2)] == [InsertingFinished(2)]; }
    var es := [AnswerBatch(0, Ok(2)), AllResolved, EndCall, AllResolved];
    assert Run(s2, es) == Run(s3, es[1..]);
    assert Run(s3, es[1..]) == Run(s4, es[2..]);
    assert Run(s4, es[2..]) == Run(s5, es[3..]);
    assert Run(s5, es[3..]) == Run(s6, []);
  }

  /** When the batch fails, the waiting write fails the stream with the batch's error. */
  lemma {:induction false} WaitRejectsTheWrite(table: string, r1: Row, r2: Row, e: Error)
    ensures var r := Run(WaitingForFirstBatch(table, r1, r2), [AnswerBatch(0, Err(e)), OneRejected(0)]);
      r.phase == WriteFailed(e) && r.emitted == [StreamError(e)]
  {
    var s2 := WaitingForFirstBatch(table, r1, r2);
    var failed := L.Batch([r1, r2], "", L.Failed(e));
    var s7 := Stream(L.Collector(table, 2, "", [], [failed], 1, 0), 2, 0, {}, Awaiting({0}), []);
    var s8 := s7.(phase := WriteFailed(e), emitted := [StreamError(e)]);
    assert Apply(s2, AnswerBatch(0, Err(e))) == s7 by { assert s2.collector.batches[0 := failed] == [failed]; }
    assert Apply(s7, OneRejected(0)) == s8 by { assert [] + [StreamError(e)] == [StreamError(e)]; }
    var es := [AnswerBatch(0, Err(e)), OneRejected(0)];
    assert Run(s2, es) == Run(s7, es[1..]);
    assert Run(s7, es[1..]) == Run(s8, []);
  }
}
