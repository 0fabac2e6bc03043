/**
  The latching batch collector of `src/collectors/BatchCollector.ts` (and of
  the standalone `src/BatchDeleteCollector.ts`, which repeats the same code).

  Every call of `flushInternal` becomes a job. A job captures the buffered
  items and the promise of the most recently scheduled *internal* flush (its
  predecessor), and then goes through three phases:
    Waiting   -- suspended in `await promise`;
    InFlight  -- its statement was issued and the driver has not answered;
    Done      -- its promise settled.
  The asynchronous steps of the source become explicit events: `Resume`
  (the `await promise` continues) and `Complete` (the driver answers one
  in-flight statement with a row count or a failure). Promise reactions on
  one promise run in registration order, so jobs leave `await promise` in
  creation order; `resumed` counts how many have.
 */
module BatchCollector {
  import opened Wrappers
  import opened Errors

  /** `MAX_BATCH_SIZE`. */
  const MaxBatchSize: nat := 1000

  /** The batch size the constructor keeps for a requested integer one (`undefined` is `None`). */
  function EffectiveBatchSize(requested: Option<int>): (n: nat)
    ensures 1 <= n <= MaxBatchSize
    ensures requested.Some? && 0 < requested.value <= MaxBatchSize ==> n == requested.value
    ensures !(requested.Some? && 0 < requested.value <= MaxBatchSize) ==> n == MaxBatchSize
  {
    if requested.Some? && requested.value > 0 && requested.value <= MaxBatchSize
    then requested.value
    else MaxBatchSize
  }

  /** How a flush promise settled. */
  datatype Settlement = Resolved | Rejected(error: Error)

  /** Where a job stands; `added` is the row count it added to the total. */
  datatype Phase = Waiting | InFlight | Done(settlement: Settlement, added: nat)

  /**
    One `flushInternal` call: the items it captured, whether `add` scheduled
    it, and the job whose promise it awaits (`None`: the initial resolved promise).
   */
  datatype Job<T> = Job(items: seq<T>, internal: bool, pred: Option<nat>)

  datatype Collector<T> = Collector(
    batchSize: nat,
    buffer: seq<T>,
    jobs: seq<Job<T>>,
    phases: seq<Phase>,
    /** The job `flushPromise` refers to. */
    last: Option<nat>,
    /** The jobs `jobs[..resumed]` have passed their `await promise`. */
    resumed: nat,
    /** The jobs whose statement was issued, in issue order. */
    sent: seq<nat>,
    /** `affectedRowCount`. */
    count: nat,
    /** The latched error. */
    error: Option<Error>)

  /** The most recent internal job of `jobs`, if any. */
  function LastInternal<T>(jobs: seq<Job<T>>): (r: Option<nat>)
    ensures r.None? ==> forall i :: 0 <= i < |jobs| ==> !jobs[i].internal
    ensures r.Some? ==> r.value < |jobs| && jobs[r.value].internal
    ensures r.Some? ==> forall i :: r.value < i < |jobs| ==> !jobs[i].internal
  {
    if |jobs| == 0 then None
    else if jobs[|jobs| - 1].internal then Some(|jobs| - 1)
    else LastInternal(jobs[..|jobs| - 1])
  }

  function Added(p: Phase): nat {
    if p.Done? then p.added else 0
  }

  /** The row counts the settled jobs added, summed. */
  function SumAdded(ps: seq<Phase>): nat {
    if |ps| == 0 then 0 else SumAdded(ps[..|ps| - 1]) + Added(ps[|ps| - 1])
  }

  lemma {:induction false} SumAddedAppend(ps: seq<Phase>, p: Phase)
    ensures SumAdded(ps + [p]) == SumAdded(ps) + Added(p)
  {
    assert (ps + [p])[..|ps|] == ps;
  }

  lemma {:induction false} SumAddedUpdate(ps: seq<Phase>, j: nat, p: Phase)
    requires j < |ps|
    ensures SumAdded(ps[j := p]) + Added(ps[j]) == SumAdded(ps) + Added(p)
    decreases |ps|
  {
    var n := |ps| - 1;
    if j == n {
      assert ps[j := p][..n] == ps[..n];
    } else {
      assert ps[j := p][..n] == ps[..n][j := p];
      SumAddedUpdate(ps[..n], j, p);
    }
  }

  /** Every item that was added and not yet sent or dropped: captured batches, then the buffer. */
  function Pending<T>(c: Collector<T>): seq<T> {
    Flatten(c.jobs) + c.buffer
  }

  function Flatten<T>(jobs: seq<Job<T>>): seq<T> {
    if |jobs| == 0 then [] else Flatten(jobs[..|jobs| - 1]) + jobs[|jobs| - 1].items
  }

  lemma {:induction false} FlattenAppend<T>(jobs: seq<Job<T>>, j: Job<T>)
    ensures Flatten(jobs + [j]) == Flatten(jobs) + j.items
  {
    assert (jobs + [j])[..|jobs|] == jobs;
  }

  /** The constructor. */
  function Init<T>(requested: Option<int>): (c: Collector<T>)
    ensures Inv(c)
    ensures c.batchSize == EffectiveBatchSize(requested)
    ensures c.count == 0 && c.error.None? && c.buffer == [] && c.sent == []
    ensures c.jobs == [] && c.phases == [] && c.last.None? && c.resumed == 0
  {
    Collector(EffectiveBatchSize(requested), [], [], [], None, 0, [], 0, None)
  }

  /** A new `flushInternal` job capturing the buffer; only an internal one becomes `flushPromise`. */
  function Schedule<T>(c: Collector<T>, internal: bool): Collector<T> {
    c.(buffer := [],
       jobs := c.jobs + [Job(c.buffer, internal, c.last)],
       phases := c.phases + [Waiting],
       last := if internal then Some(|c.jobs|) else c.last)
  }

  /**
    `add`: throws the latched error without touching anything, otherwise
    appends and hands a full buffer to an internal flush.
   */
  function Add<T>(c: Collector<T>, item: T): (r: (Collector<T>, Option<Error>))
    ensures c.error.Some? ==> r == (c, c.error)
    ensures c.error.None? ==> r.1.None?
    ensures c.error.None? && 1 <= c.batchSize ==> |r.0.buffer| < c.batchSize
    ensures c.error.None? && |c.buffer| + 1 < c.batchSize ==> r.0.jobs == c.jobs && r.0.buffer == c.buffer + [item]
    ensures c.error.None? && |c.buffer| + 1 >= c.batchSize ==>
      && r.0.jobs == c.jobs + [Job(c.buffer + [item], true, c.last)]
      && r.0.last == Some(|c.jobs|)
      && r.0.buffer == []
    ensures r.0.count == c.count && r.0.error == c.error && r.0.sent == c.sent && r.0.resumed == c.resumed
  {
    if c.error.Some? then (c, c.error)
    else
      var c1 := c.(buffer := c.buffer + [item]);
      if |c1.buffer| >= c.batchSize then (Schedule(c1, true), None) else (c1, None)
  }

  /**
    `flush`: captures the buffer in an explicit job, which awaits the last
    internal flush but does not replace it as `flushPromise`. The job's
    index is the handle on the returned promise.
   */
  function Flush<T>(c: Collector<T>): (r: (Collector<T>, nat))
    ensures r.1 == |c.jobs|
    ensures r.0.jobs == c.jobs + [Job(c.buffer, false, c.last)]
    ensures r.0.phases == c.phases + [Waiting]
    ensures r.0.buffer == [] && r.0.last == c.last
    ensures r.0.count == c.count && r.0.error == c.error && r.0.sent == c.sent && r.0.resumed == c.resumed
  {
    (Schedule(c, false), |c.jobs|)
  }

  /** An accepted item is queued after everything pending; a rejected one is not queued at all. */
  lemma {:induction false} AddConserves<T>(c: Collector<T>, item: T)
    ensures c.error.None? ==> Pending(Add(c, item).0) == Pending(c) + [item]
    ensures c.error.Some? ==> Pending(Add(c, item).0) == Pending(c)
  {
    if c.error.None? {
      var c1 := c.(buffer := c.buffer + [item]);
      FlattenAppend(c.jobs, Job(c1.buffer, true, c.last));
    }
  }

  /** `flush` moves the buffer into a job and loses nothing. */
  lemma {:induction false} FlushConserves<T>(c: Collector<T>)
    ensures Pending(Flush(c).0) == Pending(c)
  {
    FlattenAppend(c.jobs, Job(c.buffer, false, c.last));
  }

  /** A run of `add` calls, one per item, in order. */
  function AddAll<T>(c: Collector<T>, xs: seq<T>): Collector<T>
    decreases |xs|
  {
    if |xs| == 0 then c else AddAll(Add(c, xs[0]).0, xs[1..])
  }

  /** With no latched error, a run of `add` calls keeps the earlier jobs, the size and the absence of an error. */
  lemma {:induction false} AddAllKeepsJobs<T>(c: Collector<T>, xs: seq<T>)
    requires c.error.None?
    ensures var r := AddAll(c, xs);
      && |c.jobs| <= |r.jobs| && r.jobs[..|c.jobs|] == c.jobs
      && r.error.None? && r.batchSize == c.batchSize
    decreases |xs|
  {
    if |xs| == 0 {
      assert c.jobs[..|c.jobs|] == c.jobs;
    } else {
      var c1 := Add(c, xs[0]).0;
      AddAllKeepsJobs(c1, xs[1..]);
      var r := AddAll(c1, xs[1..]);
      assert r.jobs[..|c.jobs|] == r.jobs[..|c1.jobs|][..|c.jobs|];
      assert c1.jobs[..|c.jobs|] == c.jobs;
    }
  }

  /**
    With no latched error, adding n items to a buffer of m cuts
    (m + n) div batchSize new internal batches of exactly batchSize items
    each, keeps the remainder buffered, and queues every item in order.
   */
  lemma {:induction false} AddAllCuts<T>(c: Collector<T>, xs: seq<T>)
    requires c.error.None? && 1 <= c.batchSize && |c.buffer| < c.batchSize
    ensures var r := AddAll(c, xs);
      && |c.jobs| <= |r.jobs| && r.jobs[..|c.jobs|] == c.jobs
      && |c.buffer| + |xs| == (|r.jobs| - |c.jobs|) * c.batchSize + |r.buffer|
      && |r.buffer| < c.batchSize
      && (forall k :: |c.jobs| <= k < |r.jobs| ==> r.jobs[k].internal && |r.jobs[k].items| == c.batchSize)
      && r.error.None? && r.batchSize == c.batchSize
    decreases |xs|
  {
    AddAllKeepsJobs(c, xs);
    if |xs| > 0 {
      var c1 := Add(c, xs[0]).0;
      AddAllCuts(c1, xs[1..]);
      AddAllKeepsJobs(c1, xs[1..]);
      var r := AddAll(c1, xs[1..]);
      if |c.buffer| + 1 >= c.batchSize {
        var n := |r.jobs| - |c1.jobs|;
        assert |c1.jobs| == |c.jobs| + 1 && |c1.buffer| == 0;
        assert (n + 1) * c.batchSize == n * c.batchSize + c.batchSize;
        assert r.jobs[|c.jobs|] == r.jobs[..|c1.jobs|][|c.jobs|];
      }
    }
  }

  /** With no latched error, a run of `add` calls queues every item, in order, after what was pending. */
  lemma {:induction false} AddAllConserves<T>(c: Collector<T>, xs: seq<T>)
    requires c.error.None?
    ensures Pending(AddAll(c, xs)) == Pending(c) + xs
    decreases |xs|
  {
    if |xs| == 0 {
      assert Pending(c) + xs == Pending(c);
    } else {
      var c1 := Add(c, xs[0]).0;
      AddConserves(c, xs[0]);
      AddAllConserves(c1, xs[1..]);
      assert xs == [xs[0]] + xs[1..];
      assert Pending(AddAll(c, xs)) == Pending(c) + [xs[0]] + xs[1..];
    }
  }

  /** The predecessor's promise has settled. */
  predicate PredSettled<T>(c: Collector<T>, pred: Option<nat>) {
    pred.None? || (pred.value < |c.phases| && c.phases[pred.value].Done?)
  }

  /** The next job can leave `await promise`. */
  predicate CanResume<T>(c: Collector<T>) {
    c.resumed < |c.jobs| && c.resumed < |c.phases| && PredSettled(c, c.jobs[c.resumed].pred)
  }

  /**
    The next job continues after `await promise`: an explicit flush rejects
    with a latched error (dropping its items), an empty batch settles with
    no statement, anything else issues its statement.
   */
  function Resume<T>(c: Collector<T>): (r: Collector<T>)
    requires CanResume(c)
    ensures r.resumed == c.resumed + 1
    ensures r.jobs == c.jobs && r.buffer == c.buffer && r.count == c.count && r.error == c.error
    ensures var j := c.resumed; var job := c.jobs[j];
      && (!job.internal && c.error.Some? ==>
            r.phases == c.phases[j := Done(Rejected(c.error.value), 0)] && r.sent == c.sent)
      && ((job.internal || c.error.None?) && job.items == [] ==>
            r.phases == c.phases[j := Done(Resolved, 0)] && r.sent == c.sent)
      && ((job.internal || c.error.None?) && job.items != [] ==>
            r.phases == c.phases[j := InFlight] && r.sent == c.sent + [j])
  {
    var j := c.resumed;
    var job := c.jobs[j];
    if !job.internal && c.error.Some? then
      c.(phases := c.phases[j := Done(Rejected(c.error.value), 0)], resumed := j + 1)
    else if |job.items| == 0 then
      c.(phases := c.phases[j := Done(Resolved, 0)], resumed := j + 1)
    else
      c.(phases := c.phases[j := InFlight], resumed := j + 1, sent := c.sent + [j])
  }

  /** The job's statement can be answered. */
  predicate CanComplete<T>(c: Collector<T>, j: nat) {
    j < |c.jobs| && j < |c.phases| && c.phases[j].InFlight?
  }

  /**
    The driver answers job `j`: a row count is added to the total; a failure
    is latched, swallowed by an internal flush and rethrown by an explicit one.
   */
  function Complete<T>(c: Collector<T>, j: nat, outcome: Result<nat, Error>): (r: Collector<T>)
    requires CanComplete(c, j)
    ensures r.jobs == c.jobs && r.buffer == c.buffer && r.sent == c.sent && r.resumed == c.resumed
    ensures outcome.Ok? ==>
      r.count == c.count + outcome.value && r.error == c.error && r.phases == c.phases[j := Done(Resolved, outcome.value)]
    ensures outcome.Err? ==> r.count == c.count && r.error == Some(outcome.error)
    ensures outcome.Err? && c.jobs[j].internal ==> r.phases == c.phases[j := Done(Resolved, 0)]
    ensures outcome.Err? && !c.jobs[j].internal ==> r.phases == c.phases[j := Done(Rejected(outcome.error), 0)]
  {
    match outcome
    case Ok(n) =>
      c.(count := c.count + n, phases := c.phases[j := Done(Resolved, n)])
    case Err(e) =>
      c.(error := Some(e), phases := c.phases[j := Done(if c.jobs[j].internal then Resolved else Rejected(e), 0)])
  }

  /** `getAffectedRowCount`. */
  function AffectedRowCount<T>(c: Collector<T>): nat {
    c.count
  }

  /** Every issued statement belongs to a job with at least one item. */
  predicate SentNonEmpty<T>(c: Collector<T>) {
    forall a :: 0 <= a < |c.sent| ==> c.sent[a] < |c.jobs| && c.jobs[c.sent[a]].items != []
  }

  /** The batches issued so far, in issue order; none is empty. */
  function SentBatches<T>(c: Collector<T>): (bs: seq<seq<T>>)
    requires SentNonEmpty(c)
    ensures |bs| == |c.sent|
    ensures forall a :: 0 <= a < |c.sent| ==> bs[a] == c.jobs[c.sent[a]].items && bs[a] != []
  {
    seq(|c.sent|, a requires 0 <= a < |c.sent| => c.jobs[c.sent[a]].items)
  }

  /**
    The invariant of every reachable collector. Besides bookkeeping it says:
    each job awaits the last internal job created before it; jobs resume in
    creation order; every internal job but the most recently resumed one
    has settled; statements are issued in creation order, only for resumed
    jobs; and the total is the sum of the reported row counts.
   */
  predicate Inv<T>(c: Collector<T>) {
    && 1 <= c.batchSize <= MaxBatchSize
    && |c.buffer| < c.batchSize
    && |c.phases| == |c.jobs|
    && c.resumed <= |c.jobs|
    && (forall j :: 0 <= j < |c.jobs| ==> (c.phases[j].Waiting? <==> c.resumed <= j))
    && c.last == LastInternal(c.jobs)
    && (forall j :: 0 <= j < |c.jobs| ==> AwaitsLastInternal(c.jobs, j))
    && (forall i :: 0 <= i < |c.jobs| && i + 1 < c.resumed && c.jobs[i].internal ==> c.phases[i].Done?)
    && (forall a, b :: 0 <= a < b < |c.sent| ==> c.sent[a] < c.sent[b])
    && (forall a :: 0 <= a < |c.sent| ==> c.sent[a] < c.resumed)
    && SentNonEmpty(c)
    && (forall j :: 0 <= j < |c.jobs| && c.phases[j].InFlight? ==> j in c.sent)
    && c.count == SumAdded(c.phases)
  }

  /** Job `j` awaits the last internal job created before it. */
  predicate AwaitsLastInternal<T>(jobs: seq<Job<T>>, j: nat)
    requires j < |jobs|
  {
    jobs[j].pred == LastInternal(jobs[..j])
  }

  lemma {:induction false} ScheduleInv<T>(c: Collector<T>, internal: bool)
    requires Inv(c.(buffer := []))
    ensures Inv(Schedule(c, internal))
  {
    var r := Schedule(c, internal);
    var n := |c.jobs|;
    assert r.jobs[..n] == c.jobs;
    forall j | 0 <= j < |r.jobs|
      ensures AwaitsLastInternal(r.jobs, j)
    {
      if j < n {
        assert r.jobs[..j] == c.jobs[..j];
        assert AwaitsLastInternal(c.jobs, j);
      }
    }
    SumAddedAppend(c.phases, Waiting);
  }

  lemma {:induction false} AddInv<T>(c: Collector<T>, item: T)
    requires Inv(c)
    ensures Inv(Add(c, item).0)
  {
    if c.error.None? {
      var c1 := c.(buffer := c.buffer + [item]);
      if |c1.buffer| >= c.batchSize {
        assert c1.(buffer := []) == c.(buffer := []);
        assert Add(c, item).0 == Schedule(c1, true);
        ScheduleInv(c1, true);
      } else {
        assert Add(c, item).0 == c1;
      }
    }
  }

  lemma {:induction false} FlushInv<T>(c: Collector<T>)
    requires Inv(c)
    ensures Inv(Flush(c).0)
  {
    ScheduleInv(c, false);
  }

  lemma {:induction false} ResumeInv<T>(c: Collector<T>)
    requires Inv(c) && CanResume(c)
    ensures Inv(Resume(c))
  {
    var job := c.jobs[c.resumed];
    if !job.internal && c.error.Some? {
      ResumeSettles(c, Done(Rejected(c.error.value), 0));
    } else if |job.items| == 0 {
      ResumeSettles(c, Done(Resolved, 0));
    } else {
      ResumeIssues(c);
    }
  }

  /** The invariant survives the next job settling without a statement. */
  lemma {:induction false} ResumeSettles<T>(c: Collector<T>, p: Phase)
    requires Inv(c) && CanResume(c)
    requires p.Done? && p.added == 0
    ensures Inv(c.(phases := c.phases[c.resumed := p], resumed := c.resumed + 1))
  {
    SumAddedUpdate(c.phases, c.resumed, p);
    PredecessorSettled(c);
  }

  /** The invariant survives the next job issuing its statement. */
  lemma {:induction false} ResumeIssues<T>(c: Collector<T>)
    requires Inv(c) && CanResume(c)
    requires c.jobs[c.resumed].items != []
    ensures Inv(c.(phases := c.phases[c.resumed := InFlight], resumed := c.resumed + 1, sent := c.sent + [c.resumed]))
  {
    SumAddedUpdate(c.phases, c.resumed, InFlight);
    PredecessorSettled(c);
  }

  /** Every internal job before the one about to resume has settled. */
  lemma {:induction false} PredecessorSettled<T>(c: Collector<T>)
    requires Inv(c) && CanResume(c)
    ensures forall i :: 0 <= i < c.resumed && c.jobs[i].internal ==> c.phases[i].Done?
  {
    var k := c.resumed;
    var pred := LastInternal(c.jobs[..k]);
    assert AwaitsLastInternal(c.jobs, k);
    forall i | 0 <= i < k && c.jobs[i].internal
      ensures c.phases[i].Done?
    {
      if i + 1 == k {
        assert c.jobs[..k][i] == c.jobs[i];
        assert pred == Some(i);
      }
    }
  }

  lemma {:induction false} CompleteInv<T>(c: Collector<T>, j: nat, outcome: Result<nat, Error>)
    requires Inv(c) && CanComplete(c, j)
    ensures Inv(Complete(c, j, outcome))
  {
    var r := Complete(c, j, outcome);
    SumAddedUpdate(c.phases, j, r.phases[j]);
  }

  /** Under the invariant no two internal flushes are ever in flight together. */
  lemma OneInternalInFlight<T>(c: Collector<T>, i: nat, k: nat)
    requires Inv(c)
    requires i < k < |c.jobs| && c.jobs[i].internal && c.jobs[k].internal
    ensures !(c.phases[i].InFlight? && c.phases[k].InFlight?)
  {
  }

  /** An event of the collector's life; a disabled event changes nothing. */
  datatype Event<T> =
    | AddItem(item: T)
    | FlushCall
    | ResumeNext
    | CompleteJob(job: nat, outcome: Result<nat, Error>)

  function Apply<T>(c: Collector<T>, e: Event<T>): Collector<T> {
    match e
    case AddItem(x) => Add(c, x).0
    case FlushCall => Flush(c).0
    case ResumeNext => if CanResume(c) then Resume(c) else c
    case CompleteJob(j, o) => if CanComplete(c, j) then Complete(c, j, o) else c
  }

  function Run<T>(c: Collector<T>, es: seq<Event<T>>): Collector<T>
    decreases |es|
  {
    if |es| == 0 then c else Run(Apply(c, es[0]), es[1..])
  }

  lemma {:induction false} ApplyInv<T>(c: Collector<T>, e: Event<T>)
    requires Inv(c)
    ensures Inv(Apply(c, e))
  {
    match e
    case AddItem(x) => AddInv(c, x);
    case FlushCall => FlushInv(c);
    case ResumeNext => if CanResume(c) { ResumeInv(c); }
    case CompleteJob(j, o) => if CanComplete(c, j) { CompleteInv(c, j, o); }
  }

  lemma {:induction false} RunInv<T>(c: Collector<T>, es: seq<Event<T>>)
    requires Inv(c)
    ensures Inv(Run(c, es))
    decreases |es|
  {
    if |es| > 0 {
      ApplyInv(c, es[0]);
      RunInv(Apply(c, es[0]), es[1..]);
    }
  }

  /** A latched error stays latched: there is no recovery path. */
  lemma {:induction false} RunKeepsError<T>(c: Collector<T>, es: seq<Event<T>>)
    requires c.error.Some?
    ensures Run(c, es).error.Some?
    decreases |es|
  {
    if |es| > 0 {
      RunKeepsError(Apply(c, es[0]), es[1..]);
    }
  }

  lemma {:induction false} ApplyKeepsSettlement<T>(c: Collector<T>, e: Event<T>, j: nat)
    requires Inv(c) && j < |c.jobs| && c.phases[j].Done?
    ensures var r := Apply(c, e); j < |r.jobs| && j < |r.phases| && r.jobs[j] == c.jobs[j] && r.phases[j] == c.phases[j]
  {
    match e
    case AddItem(x) =>
    case FlushCall =>
    case ResumeNext =>
    case CompleteJob(k, o) =>
  }

  lemma {:induction false} ApplyKeepsLatchedJob<T>(c: Collector<T>, e: Event<T>, j: nat)
    requires Inv(c) && c.error.Some? && j < |c.jobs| && !c.jobs[j].internal && j !in c.sent
    requires c.phases[j].Waiting? || (c.phases[j].Done? && c.phases[j].settlement.Rejected? && c.phases[j].added == 0)
    ensures var r := Apply(c, e);
      && r.error.Some? && j < |r.jobs| && j < |r.phases| && r.jobs[j] == c.jobs[j] && j !in r.sent
      && (r.phases[j].Waiting? || (r.phases[j].Done? && r.phases[j].settlement.Rejected? && r.phases[j].added == 0))
  {
    match e
    case AddItem(x) =>
    case FlushCall =>
    case ResumeNext =>
    case CompleteJob(k, o) =>
  }

  /** A settled flush promise never changes again, and existing jobs keep their contents. */
  lemma {:induction false} RunKeepsSettlement<T>(c: Collector<T>, es: seq<Event<T>>, j: nat)
    requires Inv(c) && j < |c.jobs| && c.phases[j].Done?
    ensures var r := Run(c, es); j < |r.jobs| && j < |r.phases| && r.jobs[j] == c.jobs[j] && r.phases[j] == c.phases[j]
    decreases |es|
  {
    if |es| > 0 {
      ApplyInv(c, es[0]);
      ApplyKeepsSettlement(c, es[0], j);
      RunKeepsSettlement(Apply(c, es[0]), es[1..], j);
    }
  }

  /**
    An explicit flush called after an error was latched rejects with a
    latched error whenever it settles, even when it captured nothing, and
    the items it captured are never sent.
   */
  lemma {:induction false} LatchedFlushRejects<T>(c: Collector<T>, es: seq<Event<T>>)
    requires Inv(c) && c.error.Some?
    ensures var (c1, j) := Flush(c); var r := Run(c1, es);
      && j < |r.jobs| && j < |r.phases| && j !in r.sent
      && (r.phases[j].Done? ==> r.phases[j].settlement.Rejected? && r.phases[j].added == 0)
  {
    var (c1, j) := Flush(c);
    FlushInv(c);
    LatchedJobStaysRejected(c1, es, j);
  }

  /** The induction behind `LatchedFlushRejects`. */
  lemma {:induction false} LatchedJobStaysRejected<T>(c: Collector<T>, es: seq<Event<T>>, j: nat)
    requires Inv(c) && c.error.Some? && j < |c.jobs| && !c.jobs[j].internal && j !in c.sent
    requires c.phases[j].Waiting? || (c.phases[j].Done? && c.phases[j].settlement.Rejected? && c.phases[j].added == 0)
    ensures var r := Run(c, es);
      && j < |r.jobs| && j < |r.phases| && j !in r.sent
      && (r.phases[j].Done? ==> r.phases[j].settlement.Rejected? && r.phases[j].added == 0)
    decreases |es|
  {
    if |es| > 0 {
      ApplyInv(c, es[0]);
      ApplyKeepsLatchedJob(c, es[0], j);
      LatchedJobStaysRejected(Apply(c, es[0]), es[1..], j);
    }
  }
}
