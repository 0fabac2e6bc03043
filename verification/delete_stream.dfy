/**
  `DatabaseDeleteStream` of `src/streams/DatabaseDeleteStream.ts`: a
  writable object stream whose writes are keys handed to a latching delete
  collector (`src/BatchDeleteCollector.ts`, the engine of `BatchCollector`).
  Ending the stream flushes once and then emits `deleting_finished` with
  the collector's deleted count, or an error.

  The stream's life is a sequence of events: writes, the end call, the
  collector's own asynchronous steps, and the continuation of `_final`
  after its `await flush()`. An event that is not enabled changes nothing.
 */
module DeleteStream {
  import opened Wrappers
  import opened Values
  import opened Errors
  import BC = BatchCollector
  import opened Collectors

  /**
    Where the stream stands: accepting writes; failed by a write; waiting
    in `_final` for the flush job `job`; finished; failed at the end.
   */
  datatype Phase = Writing | WriteFailed(error: Error) | Ending(job: nat) | Finished | FinalFailed(error: Error)

  /** What the stream emits to its listeners. */
  datatype Emitted = DeletingFinished(deletedRowCount: nat) | StreamError(error: Error)

  datatype Stream = Stream(collector: DeleteCollector, highWaterMark: nat, phase: Phase, emitted: seq<Emitted>)

  /** The constructor: the high-water mark is the collector's batch size. */
  function New(c: DeleteCollector): (s: Stream)
    ensures s.highWaterMark == c.engine.batchSize
    ensures s.collector == c && s.phase == Writing && s.emitted == []
  {
    Stream(c, c.engine.batchSize, Writing, [])
  }

  /**
    `_write`: the key goes to the collector's `add`. A latched error thrown
    by `add` is the write's error and fails the stream; otherwise the write
    is acknowledged at once, whatever the collector does with the key.
   */
  function Write(s: Stream, key: Value): (r: (Stream, Option<Error>))
    requires s.phase.Writing?
    ensures r.0.collector.engine == BC.Add(s.collector.engine, key).0
    ensures r.1 == s.collector.engine.error
    ensures r.1.None? ==> r.0.phase == Writing && r.0.emitted == s.emitted
    ensures r.1.Some? ==> r.0.phase == WriteFailed(r.1.value) && r.0.emitted == s.emitted + [StreamError(r.1.value)]
  {
    var (engine, thrown) := BC.Add(s.collector.engine, key);
    var s1 := s.(collector := s.collector.(engine := engine));
    match thrown
    case None => (s1, None)
    case Some(e) => (s1.(phase := WriteFailed(e), emitted := s.emitted + [StreamError(e)]), Some(e))
  }

  /** `end()` reaches `_final`: one explicit flush, whose job the stream then awaits. */
  function End(s: Stream): (r: Stream)
    requires s.phase.Writing?
    ensures r.collector.engine == BC.Flush(s.collector.engine).0
    ensures r.phase == Ending(|s.collector.engine.jobs|)
    ensures r.emitted == s.emitted
  {
    var (engine, job) := BC.Flush(s.collector.engine);
    s.(collector := s.collector.(engine := engine), phase := Ending(job))
  }

  /** `_final` can continue: the flush it awaits has settled. */
  predicate CanFinish(s: Stream) {
    s.phase.Ending? && s.phase.job < |s.collector.engine.phases| && s.collector.engine.phases[s.phase.job].Done?
  }

  /**
    `_final` continues after `await flush()`: a resolved flush emits
    `deleting_finished` with the deleted count; a rejected one is the
    stream's error and nothing else is emitted.
   */
  function Finish(s: Stream): (r: Stream)
    requires CanFinish(s)
    ensures r.collector == s.collector
    ensures var p := s.collector.engine.phases[s.phase.job];
      && (p.settlement.Resolved? ==>
            r.phase == Finished && r.emitted == s.emitted + [DeletingFinished(s.collector.engine.count)])
      && (p.settlement.Rejected? ==>
            r.phase == FinalFailed(p.settlement.error) && r.emitted == s.emitted + [StreamError(p.settlement.error)])
  {
    match s.collector.engine.phases[s.phase.job].settlement
    case Resolved => s.(phase := Finished, emitted := s.emitted + [DeletingFinished(s.collector.engine.count)])
    case Rejected(e) => s.(phase := FinalFailed(e), emitted := s.emitted + [StreamError(e)])
  }

  /** An event of the stream's life. */
  datatype Event =
    | WriteKey(key: Value)
    | EndCall
    | ResumeBatch
    | AnswerBatch(job: nat, outcome: Result<nat, Error>)
    | FinalContinues

  /** The collector's own step, whatever the stream's phase. */
  function Engine(s: Stream, e: BC.Event<Value>): Stream {
    s.(collector := s.collector.(engine := BC.Apply(s.collector.engine, e)))
  }

  function Apply(s: Stream, e: Event): Stream {
    match e
    case WriteKey(key) => if s.phase.Writing? then Write(s, key).0 else s
    case EndCall => if s.phase.Writing? then End(s) else s
    case ResumeBatch => Engine(s, BC.ResumeNext)
    case AnswerBatch(j, o) => Engine(s, BC.CompleteJob(j, o))
    case FinalContinues => if CanFinish(s) then Finish(s) else s
  }

  function Run(s: Stream, es: seq<Event>): Stream
    decreases |es|
  {
    if |es| == 0 then s else Run(Apply(s, es[0]), es[1..])
  }

  /** Every job is internal: the stream has not flushed explicitly. */
  predicate AllInternal(jobs: seq<BC.Job<Value>>) {
    forall k :: 0 <= k < |jobs| ==> jobs[k].internal
  }

  /** Exactly one explicit job, the last one: the flush of `_final`. */
  predicate OneFinalFlush(jobs: seq<BC.Job<Value>>) {
    |jobs| > 0 && !jobs[|jobs| - 1].internal && forall k :: 0 <= k < |jobs| - 1 ==> jobs[k].internal
  }

  /** Every flush promise has settled. */
  predicate AllDone(c: BC.Collector<Value>) {
    forall k :: 0 <= k < |c.phases| ==> c.phases[k].Done?
  }

  /**
    The stream's invariant: the collector's own; the high-water mark is the
    batch size; no explicit flush before `end`, exactly one after it; once
    the stream finishes every flush has settled; and at most one event is
    emitted: `deleting_finished` with the final count, or the error.
   */
  predicate Inv(s: Stream) {
    var c := s.collector.engine;
    && BC.Inv(c)
    && s.highWaterMark == c.batchSize
    && ((s.phase.Writing? || s.phase.WriteFailed?) ==> AllInternal(c.jobs))
    && (!(s.phase.Writing? || s.phase.WriteFailed?) ==> OneFinalFlush(c.jobs))
    && (s.phase.Ending? ==> s.phase.job == |c.jobs| - 1)
    && ((s.phase.Finished? || s.phase.FinalFailed?) ==> AllDone(c))
    && ((s.phase.Writing? || s.phase.Ending?) ==> s.emitted == [])
    && (s.phase.Finished? ==> s.emitted == [DeletingFinished(c.count)])
    && ((s.phase.WriteFailed? || s.phase.FinalFailed?) ==> s.emitted == [StreamError(s.phase.error)])
  }

  lemma NewInv(c: DeleteCollector)
    requires BC.Inv(c.engine) && c.engine.jobs == []
    ensures Inv(New(c))
  {
  }

  /** Once every flush has settled the collector can take no step of its own. */
  lemma {:induction false} SettledEngineIsStill(c: BC.Collector<Value>, e: BC.Event<Value>)
    requires BC.Inv(c) && AllDone(c)
    requires e.ResumeNext? || e.CompleteJob?
    ensures BC.Apply(c, e) == c
  {
  }

  /** When the final flush has settled, so has every flush before it. */
  lemma {:induction false} FinalFlushSettlesAll(s: Stream)
    requires Inv(s) && CanFinish(s)
    ensures AllDone(s.collector.engine)
  {
    var c := s.collector.engine;
    var j := s.phase.job;
    assert c.resumed > j;
    forall k | 0 <= k < |c.phases|
      ensures c.phases[k].Done?
    {
      if k < j {
        assert c.jobs[k].internal;
      }
    }
  }

  lemma {:induction false} WriteInv(s: Stream, key: Value)
    requires Inv(s) && s.phase.Writing?
    ensures Inv(Write(s, key).0)
  {
    var c := s.collector.engine;
    BC.AddInv(c, key);
    var c1 := BC.Add(c, key).0;
    assert AllInternal(c1.jobs) by {
      if c.error.None? && |c.buffer| + 1 >= c.batchSize {
        assert c1.jobs == c.jobs + [BC.Job(c.buffer + [key], true, c.last)];
      }
    }
  }

  lemma {:induction false} EndInv(s: Stream)
    requires Inv(s) && s.phase.Writing?
    ensures Inv(End(s))
  {
    BC.FlushInv(s.collector.engine);
  }

  lemma {:induction false} EngineInv(s: Stream, e: BC.Event<Value>)
    requires Inv(s) && (e.ResumeNext? || e.CompleteJob?)
    ensures Inv(Engine(s, e))
  {
    var c := s.collector.engine;
    BC.ApplyInv(c, e);
    if s.phase.Finished? || s.phase.FinalFailed? {
      SettledEngineIsStill(c, e);
    } else {
      assert BC.Apply(c, e).jobs == c.jobs;
    }
  }

  lemma {:induction false} FinishInv(s: Stream)
    requires Inv(s) && CanFinish(s)
    ensures Inv(Finish(s))
  {
    FinalFlushSettlesAll(s);
  }

  lemma {:induction false} ApplyInv(s: Stream, e: Event)
    requires Inv(s)
    ensures Inv(Apply(s, e))
  {
    match e
    case WriteKey(key) => if s.phase.Writing? { WriteInv(s, key); }
    case EndCall => if s.phase.Writing? { EndInv(s); }
    case ResumeBatch => EngineInv(s, BC.ResumeNext);
    case AnswerBatch(j, o) => EngineInv(s, BC.CompleteJob(j, o));
    case FinalContinues => if CanFinish(s) { FinishInv(s); }
  }

  /** Every run from a new stream over a new collector keeps the invariant. */
  lemma {:induction false} RunInv(s: Stream, es: seq<Event>)
    requires Inv(s)
    ensures Inv(Run(s, es))
    decreases |es|
  {
    if |es| > 0 {
      ApplyInv(s, es[0]);
      RunInv(Apply(s, es[0]), es[1..]);
    }
  }

  /**
    What listeners see: at most one event. `deleting_finished` comes only
    after the single flush of `end` resolved, carries the final count, and
    no error precedes or follows it; a rejected final flush emits the error
    and no `deleting_finished`.
   */
  lemma {:induction false} EmitsOnce(c: DeleteCollector, es: seq<Event>)
    requires BC.Inv(c.engine) && c.engine.jobs == []
    ensures var s := Run(New(c), es);
      && |s.emitted| <= 1
      && (forall n :: DeletingFinished(n) in s.emitted ==>
            s.phase.Finished? && n == s.collector.engine.count && AllDone(s.collector.engine))
      && (s.phase.FinalFailed? ==> s.emitted == [StreamError(s.phase.error)])
      && (s.phase.Writing? || s.phase.WriteFailed? <==> AllInternal(s.collector.engine.jobs))
  {
    NewInv(c);
    RunInv(New(c), es);
  }

  /**
    Seven keys written with batch size 2: the writes cut three batches of
    two keys and buffer the seventh; `end` adds the fourth, explicit, batch
    with that key.
   */
  lemma {:induction false} SevenKeysBatchOfTwo(table: string, keys: seq<Value>)
    requires |keys| == 7
    ensures var c := NewDeleteCollector(table, Some(DeleteOptions(Some(2), None)));
      var written := New(c).(collector := c.(engine := BC.AddAll(c.engine, keys)));
      var w := written.collector.engine;
      && |w.jobs| == 3 && |w.buffer| == 1 && AllInternal(w.jobs)
      && (forall k :: 0 <= k < 3 ==> |w.jobs[k].items| == 2)
      && BC.Pending(w) == keys
      && var ended := End(written).collector.engine;
        |ended.jobs| == 4 && !ended.jobs[3].internal && ended.jobs[3].items == w.buffer
  {
    var c := NewDeleteCollector(table, Some(DeleteOptions(Some(2), None)));
    BC.AddAllCuts(c.engine, keys);
    BC.AddAllConserves(c.engine, keys);
    var w := BC.AddAll(c.engine, keys);
    assert BC.Pending(c.engine) == [];
    assert 7 == |w.jobs| * 2 + |w.buffer|;
  }

  /** Writing keys while no error is latched is a run of `add` calls, acknowledged one by one. */
  lemma {:induction false} WritesAreAdds(s: Stream, keys: seq<Value>)
    requires s.phase.Writing? && s.collector.engine.error.None?
    ensures var r := Run(s, seq(|keys|, i requires 0 <= i < |keys| => WriteKey(keys[i])));
      r.phase.Writing? && r.collector.engine == BC.AddAll(s.collector.engine, keys) && r.emitted == s.emitted
    decreases |keys|
  {
    var es := seq(|keys|, i requires 0 <= i < |keys| => WriteKey(keys[i]));
    if |keys| > 0 {
      var s1 := Apply(s, es[0]);
      assert es[1..] == seq(|keys[1..]|, i requires 0 <= i < |keys[1..]| => WriteKey(keys[1..][i]));
      WritesAreAdds(s1, keys[1..]);
    }
  }
}
