/**
  The two concrete latching collectors: `BatchInsertCollector` and
  `BatchDeleteCollector` of `src/collectors/`, and the standalone
  `src/BatchDeleteCollector.ts`, which inlines the same engine with the same
  options and the same statement. Each is a table plus its statement shape
  around the engine of module `BatchCollector`.
 */
module Collectors {
  import opened Wrappers
  import opened Values
  import opened Errors
  import BC = BatchCollector

  /** The options object of an insert collector; an absent property is `None`. */
  datatype InsertOptions = InsertOptions(batchSize: Option<int>, querySuffix: Option<string>)

  /** The options object of a delete collector. */
  datatype DeleteOptions = DeleteOptions(batchSize: Option<int>, keyName: Option<string>)

  datatype InsertCollector = InsertCollector(table: string, suffix: string, engine: BC.Collector<Row>)

  datatype DeleteCollector = DeleteCollector(table: string, keyName: string, engine: BC.Collector<Value>)

  /** The default key column of a delete collector. */
  const DefaultKeyName := "id"

  function NewInsertCollector(table: string, options: Option<InsertOptions>): (c: InsertCollector)
    ensures c.table == table && BC.Inv(c.engine)
    ensures c.engine == BC.Init(if options.Some? then options.value.batchSize else None)
    ensures options.None? ==> c.engine.batchSize == BC.MaxBatchSize && c.suffix == ""
    ensures options.Some? ==> c.engine.batchSize == BC.EffectiveBatchSize(options.value.batchSize)
    ensures options.Some? && options.value.querySuffix.Some? ==> c.suffix == options.value.querySuffix.value
    ensures options.Some? && options.value.querySuffix.None? ==> c.suffix == ""
  {
    var batchSize := if options.Some? then options.value.batchSize else None;
    var suffix := if options.Some? then options.value.querySuffix.GetOr("") else "";
    InsertCollector(table, suffix, BC.Init(batchSize))
  }

  function NewDeleteCollector(table: string, options: Option<DeleteOptions>): (c: DeleteCollector)
    ensures c.table == table && BC.Inv(c.engine)
    ensures c.engine == BC.Init(if options.Some? then options.value.batchSize else None)
    ensures options.None? ==> c.engine.batchSize == BC.MaxBatchSize && c.keyName == DefaultKeyName
    ensures options.Some? ==> c.engine.batchSize == BC.EffectiveBatchSize(options.value.batchSize)
    ensures options.Some? && options.value.keyName.Some? ==> c.keyName == options.value.keyName.value
    ensures options.Some? && options.value.keyName.None? ==> c.keyName == DefaultKeyName
  {
    var batchSize := if options.Some? then options.value.batchSize else None;
    var keyName := if options.Some? then options.value.keyName.GetOr(DefaultKeyName) else DefaultKeyName;
    DeleteCollector(table, keyName, BC.Init(batchSize))
  }

  /**
    The statements an insert collector has issued, in issue order: one
    multi-row insert into its table per sent batch, each with the suffix.
   */
  function InsertStatements(c: InsertCollector): (ss: seq<Statement>)
    requires BC.SentNonEmpty(c.engine)
    ensures |ss| == |c.engine.sent|
    ensures forall a :: 0 <= a < |ss| ==>
      ss[a] == InsertRows(c.table, c.engine.jobs[c.engine.sent[a]].items, c.suffix) && ss[a].rows != []
  {
    var bs := BC.SentBatches(c.engine);
    seq(|bs|, a requires 0 <= a < |bs| => InsertRows(c.table, bs[a], c.suffix))
  }

  /**
    The statements a delete collector has issued: one `DELETE ... WHERE key IN (...)`
    per sent batch, on its table and key column.
   */
  function DeleteStatements(c: DeleteCollector): (ss: seq<Statement>)
    requires BC.SentNonEmpty(c.engine)
    ensures |ss| == |c.engine.sent|
    ensures forall a :: 0 <= a < |ss| ==>
      ss[a] == DeleteKeys(c.table, c.keyName, c.engine.jobs[c.engine.sent[a]].items) && ss[a].keys != []
  {
    var bs := BC.SentBatches(c.engine);
    seq(|bs|, a requires 0 <= a < |bs| => DeleteKeys(c.table, c.keyName, bs[a]))
  }

  /** The requested batch size is kept when it is between 1 and 1000, and replaced by 1000 otherwise. */
  lemma BatchSizeClamp()
    ensures BC.EffectiveBatchSize(None) == 1000
    ensures BC.EffectiveBatchSize(Some(0)) == 1000
    ensures BC.EffectiveBatchSize(Some(-1)) == 1000
    ensures BC.EffectiveBatchSize(Some(1001)) == 1000
    ensures BC.EffectiveBatchSize(Some(1)) == 1
    ensures BC.EffectiveBatchSize(Some(1000)) == 1000
  {
  }

  /** Clamping a clamped size changes nothing. */
  lemma BatchSizeIdempotent(requested: Option<int>)
    ensures BC.EffectiveBatchSize(Some(BC.EffectiveBatchSize(requested))) == BC.EffectiveBatchSize(requested)
  {
  }

  /**
    Five keys with batch size 2 and a final `flush`, with the driver
    answering each statement before the next job resumes: the statements
    delete [1, 2], [3, 4] and [5], in that order, and the flush resolves.
    With reported counts 2, 2 and 0 the deleted row count is 4: the count
    is the sum of what the driver reports, not the number of keys.
   */
  lemma {:induction false} DeleteFiveKeysInBatchesOfTwo()
    ensures var c0 := NewDeleteCollector("table", Some(DeleteOptions(Some(2), None)));
      var c := c0.(engine := BC.Run(c0.engine, FiveKeysAdded + FiveKeysAnswered));
      && BC.SentNonEmpty(c.engine)
      && DeleteStatements(c) == [DeleteKeys("table", "id", [Int(1), Int(2)]),
                                 DeleteKeys("table", "id", [Int(3), Int(4)]),
                                 DeleteKeys("table", "id", [Int(5)])]
      && |c.engine.phases| == 3 && c.engine.phases[2] == BC.Done(BC.Resolved, 0)
      && BC.AffectedRowCount(c.engine) == 4
  {
    var c0 := NewDeleteCollector("table", Some(DeleteOptions(Some(2), None)));
    FiveKeysQueue();
    FiveKeysAnswers();
    RunAppend(c0.engine, FiveKeysAdded, FiveKeysAnswered);
    FiveKeysStatements();
  }

  lemma FiveKeysStatements()
    ensures BC.SentNonEmpty(FiveKeysDone)
    ensures DeleteStatements(DeleteCollector("table", "id", FiveKeysDone))
      == [DeleteKeys("table", "id", [Int(1), Int(2)]), DeleteKeys("table", "id", [Int(3), Int(4)]), DeleteKeys("table", "id", [Int(5)])]
  {
    var ss := DeleteStatements(DeleteCollector("table", "id", FiveKeysDone));
    assert |ss| == 3;
    assert ss[0] == DeleteKeys("table", "id", [Int(1), Int(2)]);
    assert ss[1] == DeleteKeys("table", "id", [Int(3), Int(4)]);
    assert ss[2] == DeleteKeys("table", "id", [Int(5)]);
  }

  /** `add(1)` .. `add(5)` and then `flush()`. */
  const FiveKeysAdded: seq<BC.Event<Value>> :=
    [BC.AddItem(Int(1)), BC.AddItem(Int(2)), BC.AddItem(Int(3)), BC.AddItem(Int(4)), BC.AddItem(Int(5)), BC.FlushCall]

  /** Each job resumes and the driver answers it with 2, 2 and 0 deleted rows. */
  const FiveKeysAnswered: seq<BC.Event<Value>> :=
    [BC.ResumeNext, BC.CompleteJob(0, Ok(2)), BC.ResumeNext, BC.CompleteJob(1, Ok(2)), BC.ResumeNext, BC.CompleteJob(2, Ok(0))]

  const FiveKeysJobs: seq<BC.Job<Value>> :=
    [BC.Job([Int(1), Int(2)], true, None), BC.Job([Int(3), Int(4)], true, Some(0)), BC.Job([Int(5)], false, Some(1))]

  const FiveKeysQueued: BC.Collector<Value> :=
    BC.Collector(2, [], FiveKeysJobs, [BC.Waiting, BC.Waiting, BC.Waiting], Some(1), 0, [], 0, None)

  const FiveKeysDone: BC.Collector<Value> :=
    BC.Collector(2, [], FiveKeysJobs,
      [BC.Done(BC.Resolved, 2), BC.Done(BC.Resolved, 2), BC.Done(BC.Resolved, 0)], Some(1), 3, [0, 1, 2], 4, None)

  const FiveKeysStart: BC.Collector<Value> := BC.Collector(2, [], [], [], None, 0, [], 0, None)

  const FiveKeysTwoAdded: BC.Collector<Value> :=
    BC.Collector(2, [], FiveKeysJobs[..1], [BC.Waiting], Some(0), 0, [], 0, None)

  const FiveKeysFourAdded: BC.Collector<Value> :=
    BC.Collector(2, [], FiveKeysJobs[..2], [BC.Waiting, BC.Waiting], Some(1), 0, [], 0, None)

  const FiveKeysFirstDone: BC.Collector<Value> :=
    BC.Collector(2, [], FiveKeysJobs, [BC.Done(BC.Resolved, 2), BC.Waiting, BC.Waiting], Some(1), 1, [0], 2, None)

  const FiveKeysSecondDone: BC.Collector<Value> :=
    BC.Collector(2, [], FiveKeysJobs, [BC.Done(BC.Resolved, 2), BC.Done(BC.Resolved, 2), BC.Waiting], Some(1), 2, [0, 1], 4, None)

  lemma {:induction false} FiveKeysQueue()
    ensures BC.Run(NewDeleteCollector("table", Some(DeleteOptions(Some(2), None))).engine, FiveKeysAdded) == FiveKeysQueued
  {
    assert NewDeleteCollector("table", Some(DeleteOptions(Some(2), None))).engine == FiveKeysStart;
    var a1 := [BC.AddItem(Int(1)), BC.AddItem(Int(2))];
    var a2 := [BC.AddItem(Int(3)), BC.AddItem(Int(4))];
    var a3 := [BC.AddItem(Int(5)), BC.FlushCall];
    assert FiveKeysAdded == a1 + (a2 + a3);
    FirstTwoKeys();
    NextTwoKeys();
    LastKeyAndFlush();
    RunAppend(FiveKeysStart, a1, a2 + a3);
    RunAppend(FiveKeysTwoAdded, a2, a3);
  }

  lemma FirstTwoKeys()
    ensures BC.Run(FiveKeysStart, [BC.AddItem(Int(1)), BC.AddItem(Int(2))]) == FiveKeysTwoAdded
  {
    var e1 := BC.Collector(2, [Int(1)], [], [], None, 0, [], 0, None);
    assert BC.Apply(FiveKeysStart, BC.AddItem(Int(1))) == e1 by {
      assert [] + [Int(1)] == [Int(1)];
    }
    assert BC.Apply(e1, BC.AddItem(Int(2))) == FiveKeysTwoAdded by {
      assert [Int(1)] + [Int(2)] == [Int(1), Int(2)];
      assert [] + [FiveKeysJobs[0]] == FiveKeysJobs[..1];
    }
    RunCons(FiveKeysStart, BC.AddItem(Int(1)), [BC.AddItem(Int(2))]);
    RunCons(e1, BC.AddItem(Int(2)), []);
  }

  lemma NextTwoKeys()
    ensures BC.Run(FiveKeysTwoAdded, [BC.AddItem(Int(3)), BC.AddItem(Int(4))]) == FiveKeysFourAdded
  {
    var e3 := FiveKeysTwoAdded.(buffer := [Int(3)]);
    assert BC.Apply(FiveKeysTwoAdded, BC.AddItem(Int(3))) == e3 by {
      assert [] + [Int(3)] == [Int(3)];
    }
    assert BC.Apply(e3, BC.AddItem(Int(4))) == FiveKeysFourAdded by {
      assert [Int(3)] + [Int(4)] == [Int(3), Int(4)];
      assert FiveKeysJobs[..1] + [FiveKeysJobs[1]] == FiveKeysJobs[..2];
    }
    RunCons(FiveKeysTwoAdded, BC.AddItem(Int(3)), [BC.AddItem(Int(4))]);
    RunCons(e3, BC.AddItem(Int(4)), []);
  }

  lemma LastKeyAndFlush()
    ensures BC.Run(FiveKeysFourAdded, [BC.AddItem(Int(5)), BC.FlushCall]) == FiveKeysQueued
  {
    var e5 := FiveKeysFourAdded.(buffer := [Int(5)]);
    assert BC.Apply(FiveKeysFourAdded, BC.AddItem(Int(5))) == e5 by {
      assert [] + [Int(5)] == [Int(5)];
    }
    assert BC.Apply(e5, BC.FlushCall) == FiveKeysQueued by {
      assert FiveKeysJobs[..2] + [FiveKeysJobs[2]] == FiveKeysJobs;
    }
    RunCons(FiveKeysFourAdded, BC.AddItem(Int(5)), [BC.FlushCall]);
    RunCons(e5, BC.FlushCall, []);
  }

  lemma {:induction false} FiveKeysAnswers()
    ensures BC.Run(FiveKeysQueued, FiveKeysAnswered) == FiveKeysDone
  {
    var a1 := [BC.ResumeNext, BC.CompleteJob(0, Ok(2))];
    var a2 := [BC.ResumeNext, BC.CompleteJob(1, Ok(2))];
    var a3 := [BC.ResumeNext, BC.CompleteJob(2, Ok(0))];
    assert FiveKeysAnswered == a1 + (a2 + a3);
    AnswerFirst();
    AnswerSecond();
    AnswerLast();
    RunAppend(FiveKeysQueued, a1, a2 + a3);
    RunAppend(FiveKeysFirstDone, a2, a3);
  }

  lemma AnswerFirst()
    ensures BC.Run(FiveKeysQueued, [BC.ResumeNext, BC.CompleteJob(0, Ok(2))]) == FiveKeysFirstDone
  {
    var e := BC.Resume(FiveKeysQueued);
    assert e.sent == [0] && e.phases == [BC.InFlight, BC.Waiting, BC.Waiting];
    assert BC.Complete(e, 0, Ok(2)) == FiveKeysFirstDone;
    RunCons(FiveKeysQueued, BC.ResumeNext, [BC.CompleteJob(0, Ok(2))]);
    RunCons(e, BC.CompleteJob(0, Ok(2)), []);
  }

  lemma AnswerSecond()
    ensures BC.Run(FiveKeysFirstDone, [BC.ResumeNext, BC.CompleteJob(1, Ok(2))]) == FiveKeysSecondDone
  {
    var e := BC.Resume(FiveKeysFirstDone);
    assert e.sent == [0, 1] && e.phases == [BC.Done(BC.Resolved, 2), BC.InFlight, BC.Waiting];
    assert BC.Complete(e, 1, Ok(2)) == FiveKeysSecondDone;
    RunCons(FiveKeysFirstDone, BC.ResumeNext, [BC.CompleteJob(1, Ok(2))]);
    RunCons(e, BC.CompleteJob(1, Ok(2)), []);
  }

  lemma AnswerLast()
    ensures BC.Run(FiveKeysSecondDone, [BC.ResumeNext, BC.CompleteJob(2, Ok(0))]) == FiveKeysDone
  {
    var e := BC.Resume(FiveKeysSecondDone);
    assert e.sent == [0, 1, 2] && e.phases == [BC.Done(BC.Resolved, 2), BC.Done(BC.Resolved, 2), BC.InFlight];
    assert BC.Complete(e, 2, Ok(0)) == FiveKeysDone;
    RunCons(FiveKeysSecondDone, BC.ResumeNext, [BC.CompleteJob(2, Ok(0))]);
    RunCons(e, BC.CompleteJob(2, Ok(0)), []);
  }

  lemma {:induction false} RunAppend<T>(c: BC.Collector<T>, a: seq<BC.Event<T>>, b: seq<BC.Event<T>>)
    ensures BC.Run(c, a + b) == BC.Run(BC.Run(c, a), b)
    decreases |a|
  {
    if |a| == 0 {
      assert a + b == b;
    } else {
      assert (a + b)[0] == a[0];
      assert (a + b)[1..] == a[1..] + b;
      RunAppend(BC.Apply(c, a[0]), a[1..], b);
    }
  }

  /** A run is its first event followed by the rest. */
  lemma RunCons<T>(c: BC.Collector<T>, e: BC.Event<T>, rest: seq<BC.Event<T>>)
    ensures BC.Run(c, [e] + rest) == BC.Run(BC.Apply(c, e), rest)
  {
    assert ([e] + rest)[1..] == rest;
  }

  /** An explicit key column is used in the statement instead of `id`. */
  lemma {:induction false} DeleteUsesKeyName()
    ensures var c0 := NewDeleteCollector("table", Some(DeleteOptions(None, Some("foo"))));
      var e1 := BC.Flush(BC.Add(c0.engine, Int(1)).0).0;
      var c := c0.(engine := BC.Resume(e1));
      c.engine.batchSize == 1000 && DeleteStatements(c) == [DeleteKeys("table", "foo", [Int(1)])]
  {
    var c0 := NewDeleteCollector("table", Some(DeleteOptions(None, Some("foo"))));
    var e1 := BC.Flush(BC.Add(c0.engine, Int(1)).0).0;
    assert e1.jobs[0].items == [] + [Int(1)] == [Int(1)];
    assert e1.jobs == [BC.Job([Int(1)], false, None)];
    var e2 := BC.Resume(e1);
    assert e2.sent == [0] && e2.jobs == e1.jobs;
  }

  /**
    A failed internal batch is latched: the next `add` throws that error and
    buffers nothing, and a later `flush` rejects with it without a statement.
   */
  lemma {:induction false} FailedBatchLatches(e: Error)
    ensures var c0 := NewInsertCollector("table", Some(InsertOptions(Some(1), None)));
      var e1 := BC.Resume(BC.Add(c0.engine, Row([])).0);
      var e2 := BC.Complete(e1, 0, Err(e));
      && BC.Add(e2, Row([])) == (e2, Some(e))
      && var (e3, j) := BC.Flush(e2);
         BC.Resume(e3).phases[j] == BC.Done(BC.Rejected(e), 0) && BC.Resume(e3).sent == [0]
  {
    var c0 := NewInsertCollector("table", Some(InsertOptions(Some(1), None)));
    var e0 := BC.Add(c0.engine, Row([])).0;
    assert e0.jobs[0].items == [] + [Row([])] == [Row([])];
    assert e0.jobs == [BC.Job([Row([])], true, None)];
    var e1 := BC.Resume(e0);
    var e2 := BC.Complete(e1, 0, Err(e));
    assert e2.phases == [BC.Done(BC.Resolved, 0)];
  }

  /**
    The latched error is overwritten by a later failure: two internal
    batches already in the chain both fail, and `add` then throws the second
    failure, not the first.
   */
  lemma {:induction false} LatchedErrorIsOverwritten(first: Error, second: Error)
    ensures var c0 := NewInsertCollector("table", Some(InsertOptions(Some(1), None)));
      var e2 := BC.Add(BC.Add(c0.engine, Row([])).0, Row([])).0;
      var e3 := BC.Complete(BC.Resume(e2), 0, Err(first));
      var e4 := BC.Complete(BC.Resume(e3), 1, Err(second));
      BC.Add(e3, Row([])).1 == Some(first) && BC.Add(e4, Row([])).1 == Some(second)
  {
    var c0 := NewInsertCollector("table", Some(InsertOptions(Some(1), None)));
    var e1 := BC.Add(c0.engine, Row([])).0;
    var e2 := BC.Add(e1, Row([])).0;
    assert e1.jobs[0].items == [] + [Row([])] == [Row([])];
    assert e2.jobs[1].items == [] + [Row([])] == [Row([])];
    assert e2.jobs == [BC.Job([Row([])], true, None), BC.Job([Row([])], true, Some(0))];
    var e3 := BC.Complete(BC.Resume(e2), 0, Err(first));
    assert e3.phases[0].Done?;
  }

  /** An insert collector issues its rows with the configured suffix. */
  lemma {:induction false} InsertUsesSuffix(r1: Row, r2: Row)
    ensures var c0 := NewInsertCollector("table", Some(InsertOptions(Some(2), Some("ON CONFLICT DO NOTHING"))));
      var c := c0.(engine := BC.Resume(BC.Add(BC.Add(c0.engine, r1).0, r2).0));
      InsertStatements(c) == [InsertRows("table", [r1, r2], "ON CONFLICT DO NOTHING")]
  {
    var c0 := NewInsertCollector("table", Some(InsertOptions(Some(2), Some("ON CONFLICT DO NOTHING"))));
    var e1 := BC.Add(c0.engine, r1).0;
    var e2 := BC.Add(e1, r2).0;
    assert e2.jobs[0].items == [r1] + [r2] == [r1, r2];
    assert e2.jobs == [BC.Job([r1, r2], true, None)];
    var e3 := BC.Resume(e2);
    assert e3.sent == [0] && e3.jobs == e2.jobs;
  }
}
