/**
  The older insert collector of `src/BatchInsertCollector.ts` (the Flow file
  `src/BatchInsertCollector.js` is the same code). It has no latched error:
  every batch has its own promise, `add` returns the promise of the batch
  its row went into, and a failure rejects that promise only.

  Batches are named by handles. The batch being filled (the buffer `rows`)
  has handle `|batches|`; flushing it appends it to `batches` and opens the
  next one. The asynchronous steps of the source are explicit: `Tick` runs
  one `process.nextTick` flush, `Complete` is the driver's answer to one
  issued batch, in any order.
 */
module LegacyInsertCollector {
  import opened Wrappers
  import opened Values
  import opened Errors
  import BC = BatchCollector

  /** `maxBatchInsert`. */
  const MaxBatchInsert: int := 1000

  /** How a batch promise stands. */
  datatype BatchState = Pending | Fulfilled(added: nat) | Failed(error: Error)

  /** A flushed batch: its rows, the suffix its statement carried, and its promise. */
  datatype Batch = Batch(rows: seq<Row>, suffix: string, state: BatchState)

  /**
    The collector: the table, `batchSize`, `querySuffix`, the buffer of the
    open batch, the flushed batches by handle, the number of scheduled
    deferred flushes that have not run yet, and `insertedRowCount`.
   */
  datatype Collector = Collector(
    table: string,
    batchSize: int,
    suffix: string,
    rows: seq<Row>,
    batches: seq<Batch>,
    ticks: nat,
    count: nat)

  /** The constructor. */
  function New(table: string): (c: Collector)
    ensures c.table == table && c.batchSize == MaxBatchInsert && c.suffix == ""
    ensures c.rows == [] && c.batches == [] && c.ticks == 0 && c.count == 0
  {
    Collector(table, MaxBatchInsert, "", [], [], 0, 0)
  }

  /** `setBatchSize`: an integer size of at most 0 or above the maximum becomes the maximum. */
  function SetBatchSize(c: Collector, n: int): (r: Collector)
    ensures 1 <= r.batchSize <= MaxBatchInsert
    ensures 0 < n <= MaxBatchInsert ==> r.batchSize == n
    ensures !(0 < n <= MaxBatchInsert) ==> r.batchSize == MaxBatchInsert
    ensures r.(batchSize := c.batchSize) == c
  {
    c.(batchSize := if n <= 0 || n > MaxBatchInsert then MaxBatchInsert else n)
  }

  /** `setQuerySuffix`: replaces the suffix and nothing else. */
  function SetQuerySuffix(c: Collector, suffix: string): (r: Collector)
    ensures r.suffix == suffix && r.(suffix := c.suffix) == c
  {
    c.(suffix := suffix)
  }

  /** The rows of the batch a handle names: flushed, open, or not yet opened. */
  function RowsOf(c: Collector, id: nat): seq<Row> {
    if id < |c.batches| then c.batches[id].rows
    else if id == |c.batches| then c.rows
    else []
  }

  /**
    The statements issued so far, one per flushed batch, in flush order; in
    a reachable collector no insert is issued without rows.
   */
  function Sent(c: Collector): (ss: seq<Statement>)
    ensures |ss| == |c.batches|
    ensures forall i :: 0 <= i < |c.batches| ==>
      ss[i] == InsertRows(c.table, c.batches[i].rows, c.batches[i].suffix)
    ensures Inv(c) ==> forall i :: 0 <= i < |ss| ==> ss[i].InsertRows? && ss[i].rows != []
  {
    seq(|c.batches|, i requires 0 <= i < |c.batches| =>
      InsertRows(c.table, c.batches[i].rows, c.batches[i].suffix))
  }

  /**
    `flush`: an empty buffer is left alone and nothing is sent; otherwise
    the whole buffer becomes a pending batch, its statement is issued with
    the current suffix, and a fresh open batch starts.
   */
  function Flush(c: Collector): (r: Collector)
    ensures c.rows == [] ==> r == c
    ensures c.rows != [] ==> r.rows == [] && r.batches == c.batches + [Batch(c.rows, c.suffix, Pending)]
    ensures c.rows != [] ==> Sent(r) == Sent(c) + [InsertRows(c.table, c.rows, c.suffix)]
    ensures r.(rows := c.rows, batches := c.batches) == c
  {
    if c.rows == [] then c
    else c.(rows := [], batches := c.batches + [Batch(c.rows, c.suffix, Pending)])
  }

  /**
    `add`: the row joins the open batch, whose handle is returned. The row
    that makes the buffer non-empty schedules a deferred flush; reaching the
    batch size flushes at once.
   */
  function Add(c: Collector, row: Row): (r: (Collector, nat))
    ensures r.1 == |c.batches|
    ensures RowsOf(r.0, r.1) == c.rows + [row]
    ensures r.0.ticks == c.ticks + (if c.rows == [] then 1 else 0)
    ensures |c.rows| + 1 >= c.batchSize ==> r.0.rows == [] && r.0.batches == c.batches + [Batch(c.rows + [row], c.suffix, Pending)]
    ensures |c.rows| + 1 < c.batchSize ==> r.0.rows == c.rows + [row] && r.0.batches == c.batches
    ensures r.0.(rows := c.rows, batches := c.batches, ticks := c.ticks) == c
  {
    var pushed := c.(rows := c.rows + [row], ticks := if |c.rows| + 1 == 1 then c.ticks + 1 else c.ticks);
    (if |pushed.rows| >= c.batchSize then Flush(pushed) else pushed, |c.batches|)
  }

  /** One scheduled `process.nextTick` flush runs: it flushes whatever is buffered by then. */
  function Tick(c: Collector): (r: Collector)
    requires c.ticks > 0
    ensures r.ticks == c.ticks - 1
    ensures r.rows == []
    ensures c.rows == [] ==> r.batches == c.batches
    ensures c.rows != [] ==> r.batches == c.batches + [Batch(c.rows, c.suffix, Pending)]
  {
    Flush(c.(ticks := c.ticks - 1))
  }

  /** Whether the driver can answer batch `id`: it was issued and has not been answered. */
  predicate CanComplete(c: Collector, id: nat) {
    id < |c.batches| && c.batches[id].state.Pending?
  }

  /**
    The driver answers batch `id`: a row count is added to the total and
    resolves the batch promise; a failure rejects it and changes nothing else.
   */
  function Complete(c: Collector, id: nat, outcome: Result<nat, Error>): (r: Collector)
    requires CanComplete(c, id)
    ensures |r.batches| == |c.batches| && r.batches[id].rows == c.batches[id].rows
    ensures outcome.Ok? ==> r.batches[id].state == Fulfilled(outcome.value) && r.count == c.count + outcome.value
    ensures outcome.Err? ==> r.batches[id].state == Failed(outcome.error) && r.count == c.count
    ensures forall i :: 0 <= i < |c.batches| && i != id ==> r.batches[i] == c.batches[i]
    ensures r.(batches := c.batches, count := c.count) == c
  {
    var b := c.batches[id];
    match outcome
    case Ok(n) => c.(batches := c.batches[id := b.(state := Fulfilled(n))], count := c.count + n)
    case Err(e) => c.(batches := c.batches[id := b.(state := Failed(e))])
  }

  /** `getInsertedRowCount`. */
  function InsertedRowCount(c: Collector): nat {
    c.count
  }

  /** How the promise `add` returned for handle `id` stands: unsettled, resolved or rejected. */
  function AddSettlement(c: Collector, id: nat): Option<Result<(), Error>> {
    if id < |c.batches| then
      match c.batches[id].state
      case Pending => None
      case Fulfilled(_) => Some(Ok(()))
      case Failed(e) => Some(Err(e))
    else None
  }

  function Added(s: BatchState): nat {
    if s.Fulfilled? then s.added else 0
  }

  /** The row counts of the resolved batches, added up. */
  function SumFulfilled(bs: seq<Batch>): nat
    decreases |bs|
  {
    if |bs| == 0 then 0 else SumFulfilled(bs[..|bs| - 1]) + Added(bs[|bs| - 1].state)
  }

  lemma {:induction false} SumFulfilledAppend(bs: seq<Batch>, b: Batch)
    ensures SumFulfilled(bs + [b]) == SumFulfilled(bs) + Added(b.state)
  {
    assert (bs + [b])[..|bs|] == bs;
  }

  lemma {:induction false} SumFulfilledUpdate(bs: seq<Batch>, id: nat, b: Batch)
    requires id < |bs|
    ensures SumFulfilled(bs[id := b]) + Added(bs[id].state) == SumFulfilled(bs) + Added(b.state)
    decreases |bs|
  {
    var n := |bs| - 1;
    if id < n {
      assert bs[id := b][..n] == bs[..n][id := b];
      SumFulfilledUpdate(bs[..n], id, b);
    } else {
      assert bs[id := b][..n] == bs[..n];
    }
  }

  /**
    The collector's invariant: the batch size is in range, every flushed
    batch has rows, a non-empty buffer always has a deferred flush scheduled
    for it, and the count is the sum of the resolved batches' row counts.
   */
  predicate Inv(c: Collector) {
    && 1 <= c.batchSize <= MaxBatchInsert
    && (forall i :: 0 <= i < |c.batches| ==> c.batches[i].rows != [])
    && (c.rows != [] ==> c.ticks > 0)
    && c.count == SumFulfilled(c.batches)
  }

  /** An event of the collector's life; a disabled event changes nothing. */
  datatype Event =
    | SetSize(n: int)
    | SetSuffix(suffix: string)
    | AddRow(row: Row)
    | FlushCall
    | TickNext
    | CompleteBatch(id: nat, outcome: Result<nat, Error>)

  function Apply(c: Collector, e: Event): Collector {
    match e
    case SetSize(n) => SetBatchSize(c, n)
    case SetSuffix(s) => SetQuerySuffix(c, s)
    case AddRow(row) => Add(c, row).0
    case FlushCall => Flush(c)
    case TickNext => if c.ticks > 0 then Tick(c) else c
    case CompleteBatch(id, o) => if CanComplete(c, id) then Complete(c, id, o) else c
  }

  function Run(c: Collector, es: seq<Event>): Collector
    decreases |es|
  {
    if |es| == 0 then c else Run(Apply(c, es[0]), es[1..])
  }

  lemma {:induction false} FlushInv(c: Collector)
    requires Inv(c)
    ensures Inv(Flush(c))
  {
    if c.rows != [] {
      SumFulfilledAppend(c.batches, Batch(c.rows, c.suffix, Pending));
    }
  }

  lemma {:induction false} AddInv(c: Collector, row: Row)
    requires Inv(c)
    ensures Inv(Add(c, row).0)
  {
    var pushed := c.(rows := c.rows + [row], ticks := if |c.rows| + 1 == 1 then c.ticks + 1 else c.ticks);
    assert Inv(pushed);
    FlushInv(pushed);
  }

  lemma {:induction false} CompleteInv(c: Collector, id: nat, outcome: Result<nat, Error>)
    requires Inv(c) && CanComplete(c, id)
    ensures Inv(Complete(c, id, outcome))
  {
    var b := c.batches[id];
    var s := if outcome.Ok? then Fulfilled(outcome.value) else Failed(outcome.error);
    SumFulfilledUpdate(c.batches, id, b.(state := s));
  }

  lemma {:induction false} TickInv(c: Collector)
    requires Inv(c) && c.ticks > 0
    ensures Inv(Tick(c))
  {
    if c.rows != [] {
      SumFulfilledAppend(c.batches, Batch(c.rows, c.suffix, Pending));
    }
  }

  lemma {:induction false} SettersInv(c: Collector, n: int, suffix: string)
    requires Inv(c)
    ensures Inv(SetBatchSize(c, n)) && Inv(SetQuerySuffix(c, suffix))
  {
  }

  lemma {:induction false} ApplyInv(c: Collector, e: Event)
    requires Inv(c)
    ensures Inv(Apply(c, e))
  {
    match e
    case SetSize(n) => SettersInv(c, n, c.suffix);
    case SetSuffix(s) => SettersInv(c, c.batchSize, s);
    case AddRow(row) => AddInv(c, row);
    case FlushCall => FlushInv(c);
    case TickNext => if c.ticks > 0 { TickInv(c); }
    case CompleteBatch(id, o) => if CanComplete(c, id) { CompleteInv(c, id, o); }
  }

  /** Every run from a constructed collector keeps the invariant. */
  lemma {:induction false} RunInv(c: Collector, es: seq<Event>)
    requires Inv(c)
    ensures Inv(Run(c, es))
    decreases |es|
  {
    if |es| > 0 {
      ApplyInv(c, es[0]);
      RunInv(Apply(c, es[0]), es[1..]);
    }
  }

  /**
    Both collectors clamp every integer batch size the same way. Sizes are
    integers here: a NaN or fractional JavaScript number is not modelled.
   */
  lemma ClampsAgree(c: Collector, n: int)
    ensures SetBatchSize(c, n).batchSize == BC.EffectiveBatchSize(Some(n))
  {
  }

  /**
    A handle's rows only grow while its batch is open and are fixed once it
    is flushed, so no event moves a row out of the batch `add` named.
   */
  lemma {:induction false} ApplyKeepsRows(c: Collector, e: Event, id: nat)
    requires id <= |c.batches|
    ensures |c.batches| <= |Apply(c, e).batches|
    ensures RowsOf(c, id) <= RowsOf(Apply(c, e), id)
  {
    var r := Apply(c, e);
    match e
    case SetSize(n) =>
    case SetSuffix(s) =>
    case AddRow(row) =>
      if id == |c.batches| {
        assert RowsOf(r, id) == c.rows + [row];
      } else {
        assert RowsOf(r, id) == c.batches[id].rows;
      }
    case FlushCall =>
    case TickNext =>
    case CompleteBatch(i, o) =>
  }

  lemma {:induction false} RunKeepsRows(c: Collector, es: seq<Event>, id: nat)
    requires id <= |c.batches|
    ensures |c.batches| <= |Run(c, es).batches|
    ensures RowsOf(c, id) <= RowsOf(Run(c, es), id)
    decreases |es|
  {
    if |es| > 0 {
      var c1 := Apply(c, es[0]);
      ApplyKeepsRows(c, es[0], id);
      RunKeepsRows(c1, es[1..], id);
    }
  }

  /** Whatever happens after `add` returns, the row stays in the batch its handle names. */
  lemma {:induction false} AddedRowStaysInItsBatch(c: Collector, row: Row, es: seq<Event>)
    ensures var (c1, id) := Add(c, row);
      row in RowsOf(Run(c1, es), id)
  {
    var (c1, id) := Add(c, row);
    RunKeepsRows(c1, es, id);
    assert RowsOf(c1, id)[|c.rows|] == row;
  }

  /** The driver's answer to a batch settles exactly the promises of that batch's handle. */
  lemma CompleteSettlesItsHandle(c: Collector, id: nat, outcome: Result<nat, Error>, other: nat)
    requires CanComplete(c, id) && other != id
    ensures AddSettlement(Complete(c, id, outcome), id) ==
      Some(if outcome.Ok? then Ok(()) else Err(outcome.error))
    ensures AddSettlement(Complete(c, id, outcome), other) == AddSettlement(c, other)
  {
  }

  /**
    There is no latch: after a batch fails, `add` takes a row exactly as it
    would have before the failure, and the next flush still sends it.
   */
  lemma NoLatch(c: Collector, id: nat, e: Error, row: Row)
    requires CanComplete(c, id)
    ensures var failed := Complete(c, id, Err(e));
      && Add(failed, row).1 == Add(c, row).1
      && Add(failed, row).0.rows == Add(c, row).0.rows
      && Sent(Flush(Add(failed, row).0)) == Sent(Flush(Add(c, row).0))
  {
    var failed := Complete(c, id, Err(e));
    assert Sent(failed) == Sent(c);
  }

  /** A run is its first event followed by the rest. */
  lemma RunCons(c: Collector, e: Event, rest: seq<Event>)
    ensures Run(c, [e] + rest) == Run(Apply(c, e), rest)
  {
    assert ([e] + rest)[1..] == rest;
  }

  /** The collector after five rows in the default batch size and the deferred flush. */
  lemma {:induction false} FiveRowsRun(table: string, r1: Row, r2: Row, r3: Row, r4: Row)
    ensures Run(New(table), [AddRow(r1), AddRow(r2), AddRow(r3), AddRow(r4), AddRow(r2), TickNext])
         == Collector(table, 1000, "", [], [Batch([r1, r2, r3, r4, r2], "", Pending)], 0, 0)
  {
    var c0 := New(table);
    var c1 := Collector(table, 1000, "", [r1], [], 1, 0);
    var c2 := Collector(table, 1000, "", [r1, r2], [], 1, 0);
    var c3 := Collector(table, 1000, "", [r1, r2, r3], [], 1, 0);
    var c4 := Collector(table, 1000, "", [r1, r2, r3, r4], [], 1, 0);
    var c5 := Collector(table, 1000, "", [r1, r2, r3, r4, r2], [], 1, 0);
    var c6 := Collector(table, 1000, "", [], [Batch([r1, r2, r3, r4, r2], "", Pending)], 0, 0);
    var t5: seq<Event> := [TickNext];
    var t4 := [AddRow(r2)] + t5;
    var t3 := [AddRow(r4)] + t4;
    var t2 := [AddRow(r3)] + t3;
    var t1 := [AddRow(r2)] + t2;
    assert [AddRow(r1), AddRow(r2), AddRow(r3), AddRow(r4), AddRow(r2), TickNext] == [AddRow(r1)] + t1;
    assert Apply(c0, AddRow(r1)) == c1 by { assert [] + [r1] == [r1]; }
    assert Apply(c1, AddRow(r2)) == c2 by { assert [r1] + [r2] == [r1, r2]; }
    assert Apply(c2, AddRow(r3)) == c3 by { assert [r1, r2] + [r3] == [r1, r2, r3]; }
    assert Apply(c3, AddRow(r4)) == c4 by { assert [r1, r2, r3] + [r4] == [r1, r2, r3, r4]; }
    assert Apply(c4, AddRow(r2)) == c5 by { assert [r1, r2, r3, r4] + [r2] == [r1, r2, r3, r4, r2]; }
    assert Apply(c5, TickNext) == c6 by { assert [] + [Batch([r1, r2, r3, r4, r2], "", Pending)] == c6.batches; }
    RunCons(c0, AddRow(r1), t1);
    RunCons(c1, AddRow(r2), t2);
    RunCons(c2, AddRow(r3), t3);
    RunCons(c3, AddRow(r4), t4);
    RunCons(c4, AddRow(r2), t5);
    RunCons(c5, TickNext, []);
    assert t5 == [TickNext] + [];
  }

  /** Five rows in the default batch size, one deferred flush, and a server count of 4. */
  lemma {:induction false} FiveRowsCountFour(table: string, r1: Row, r2: Row, r3: Row, r4: Row)
    ensures var c := Run(New(table), [AddRow(r1), AddRow(r2), AddRow(r3), AddRow(r4), AddRow(r2), TickNext]);
      && Sent(c) == [InsertRows(table, [r1, r2, r3, r4, r2], "")]
      && InsertedRowCount(Apply(c, CompleteBatch(0, Ok(4)))) == 4
      && AddSettlement(Apply(c, CompleteBatch(0, Ok(4))), 0) == Some(Ok(()))
  {
    FiveRowsRun(table, r1, r2, r3, r4);
  }

  /** Four rows with batch size 2: two batches flushed at once, nothing buffered. */
  lemma {:induction false} FourRowsRun(table: string, r1: Row, r2: Row, r3: Row, r4: Row)
    ensures Run(SetBatchSize(New(table), 2), [AddRow(r1), AddRow(r2), AddRow(r3), AddRow(r4)])
         == Collector(table, 2, "", [], [Batch([r1, r2], "", Pending), Batch([r3, r4], "", Pending)], 2, 0)
  {
    var c := SetBatchSize(New(table), 2);
    var b1 := Batch([r1, r2], "", Pending);
    var b2 := Batch([r3, r4], "", Pending);
    var c1 := Collector(table, 2, "", [r1], [], 1, 0);
    var c2 := Collector(table, 2, "", [], [b1], 1, 0);
    var c3 := Collector(table, 2, "", [r3], [b1], 2, 0);
    var c4 := Collector(table, 2, "", [], [b1, b2], 2, 0);
    var t3: seq<Event> := [AddRow(r4)];
    var t2 := [AddRow(r3)] + t3;
    var t1 := [AddRow(r2)] + t2;
    assert [AddRow(r1), AddRow(r2), AddRow(r3), AddRow(r4)] == [AddRow(r1)] + t1;
    assert Apply(c, AddRow(r1)) == c1 by { assert [] + [r1] == [r1]; }
    assert Apply(c1, AddRow(r2)) == c2 by { assert [r1] + [r2] == [r1, r2]; assert [] + [b1] == [b1]; }
    assert Apply(c2, AddRow(r3)) == c3 by { assert [] + [r3] == [r3]; }
    assert Apply(c3, AddRow(r4)) == c4 by { assert [r3] + [r4] == [r3, r4]; assert [b1] + [b2] == [b1, b2]; }
    RunCons(c, AddRow(r1), t1);
    RunCons(c1, AddRow(r2), t2);
    RunCons(c2, AddRow(r3), t3);
    RunCons(c3, AddRow(r4), []);
    assert t3 == [AddRow(r4)] + [];
  }

  /**
    Batch size 2: four adds send two statements at once, a fifth waits in
    the buffer, and the explicit flush sends it as a third.
   */
  lemma {:induction false} BatchesOfTwo(table: string, r1: Row, r2: Row, r3: Row, r4: Row, r5: Row)
    ensures var c := SetBatchSize(New(table), 2);
      var c4 := Run(c, [AddRow(r1), AddRow(r2), AddRow(r3), AddRow(r4)]);
      var c5 := Add(c4, r5).0;
      && Sent(c4) == [InsertRows(table, [r1, r2], ""), InsertRows(table, [r3, r4], "")]
      && Sent(c5) == Sent(c4)
      && Sent(Flush(c5)) == Sent(c4) + [InsertRows(table, [r5], "")]
      && Add(c4, r5).1 == 2
  {
    FourRowsRun(table, r1, r2, r3, r4);
    var b1 := Batch([r1, r2], "", Pending);
    var b2 := Batch([r3, r4], "", Pending);
    var c4 := Collector(table, 2, "", [], [b1, b2], 2, 0);
    assert Add(c4, r5).0 == Collector(table, 2, "", [r5], [b1, b2], 3, 0) by { assert [] + [r5] == [r5]; }
  }
}
