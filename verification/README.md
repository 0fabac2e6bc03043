# nodejs-postgres-client, modelled in Dafny

This project models the core of `@cookielab.io/postgres-client`, a thin layer
over the `pg` driver. It covers:

- the connection helpers of `QueryableConnection` (`findOne`, `getRow`,
  `getOne`, `getRows`, the debug-mode error wrapping of `query`, the
  `insertStream` set-up);
- `QueryError` and `isUniqueViolation`;
- `mapOneColumn` and the custom-type hook `prepareJavascriptValue`;
- the batch collectors:
  - the latching `BatchCollector` base with its insert and delete
    subclasses;
  - the standalone `BatchDeleteCollector`;
  - the older promise-per-batch `BatchInsertCollector`;
- the two writable streams built on the collectors;
- nested transactions as savepoints in `Transaction`;
- the pool-level `Client.transaction` and `Client.streamQuery`.

The asynchronous behaviour is modelled as explicit events: a promise
continuation, the driver answering one statement, a stream signal. Each
event is applied only when it is enabled, and a disabled event changes
nothing, so every interleaving the JavaScript event loop can produce is some
sequence of events. Invariants are proved per event and then for every run.
The driver and the pool are oracles:

- a statement is answered with a row count or an error;
- a checkout succeeds or fails;
- a cursor ends, closes or errors.

SQL text is kept as structured `Statement` values. The table, rows or keys
and the suffix of a batch statement are recorded, but the string the
`pg-async` template would build is not.

Modules, one file each:

| file | module | models |
|---|---|---|
| wrappers.dfy | Wrappers | `Option` / `Result` |
| values.dfy | Values | column values, rows, query inputs, statements |
| errors.dfy | Errors | the error kinds the library raises or passes on |
| query_errors.dfy | QueryErrors | `src/errors/QueryError.ts` and `.js` |
| unique_violation.dfy | UniqueViolation | `src/isUniqueViolation.ts` |
| map_one_column.dfy | MapOneColumn | `src/mapOneColumn.ts` |
| prepare_value.dfy | PrepareValue | `src/prepareJavascriptValue.ts` |
| queryable.dfy | Queryable | `src/QueryableConnection.ts` and `.js` |
| batch_collector.dfy | BatchCollector | `src/collectors/BatchCollector.ts`, `src/BatchDeleteCollector.ts` |
| collectors.dfy | Collectors | `src/collectors/BatchInsertCollector.ts`, `src/collectors/BatchDeleteCollector.ts` |
| legacy_insert_collector.dfy | LegacyInsertCollector | `src/BatchInsertCollector.ts` and `.js` |
| delete_stream.dfy | DeleteStream | `src/streams/DatabaseDeleteStream.ts` |
| insert_stream.dfy | InsertStream | `src/streams/DatabaseInsertStream.ts` and `.js` |
| transaction.dfy | Transactions | `src/Transaction.ts` and `.js` |
| client.dfy | Clients | `src/Client.ts` and `.js` (`transaction`, `streamQuery`) |

Several TypeScript files have a Flow (`.js`) twin that does the same thing.
A twin is modelled by the same member:

- `src/QueryableConnection.js:23-94` is twinned with `Queryable.FindOne`,
  `Queryable.GetRow`, `Queryable.GetOne` and `Queryable.GetRows`.
- `src/isUniqueViolation.js:6-11` is twinned with
  `UniqueViolation.IsUniqueViolation`.
- `src/prepareJavascriptValue.js:20-31` is twinned with
  `PrepareValue.PrepareJavascriptValue`.
- `src/BatchInsertCollector.js` matches the `.ts` file shifted by two lines:
  - `setBatchSize` is at 31-36;
  - `add` is at 47-59;
  - `flush` is at 61-77.
- `src/streams/DatabaseInsertStream.js:40-66` is twinned with
  `InsertStream.Write` and `InsertStream.End`.
- `src/Client.js:50-95` is twinned with the `Clients` members.

Where the twins differ, the model has a switch:

- The Flow `QueryError` has a plain `causedBy` field, which the model
  covers as `QueryErrors.AssignCausedBy`.
- The Flow `query` normalises a string into a config
  (`Queryable.Normalise`).
- The Flow `Transaction` has no nested-transaction lock, and its
  `streamQuery` goes through the wrapping `query`. This is
  `Transactions.Flavor`.

## Model

| member | source | states |
|---|---|---|
| QueryErrors.NewQueryError | src/errors/QueryError.ts:8-12 | a new error carries the fixed message, no cause and no code; query text and values come from the config, or from the string and the separate values |
| QueryErrors.InputFormsAgree | src/errors/QueryError.ts:10-11 | a string plus values and a config with the same text and values make the same error, whatever values accompany the config |
| QueryErrors.SetCausedBy | src/errors/QueryError.ts:18-23 | the setter fails exactly when a cause is already present, and otherwise changes the cause and nothing else |
| QueryErrors.CausedBySetOnce | src/errors/QueryError.ts:14-23 | after a first cause is set, any later assignment fails and the getter still returns the first cause |
| QueryErrors.UndefinedCauseStaysSettable | src/errors/QueryError.ts:19-22 | assigning `undefined` to an error without a cause leaves it unchanged and still settable |
| QueryErrors.AssignCausedBy | src/errors/QueryError.js:8 | the Flow field assignment replaces the cause and nothing else |
| QueryErrors.FlowLastAssignmentWins | src/errors/QueryError.js:8 | with the plain field the second assignment wins, where the TypeScript setter throws |
| UniqueViolation.Inspected | src/isUniqueViolation.ts:8-10 | the inspected error is the cause of a `QueryError` that has one, otherwise the error itself |
| UniqueViolation.IsUniqueViolation | src/isUniqueViolation.ts:12-13 | a positive answer needs a code on the inspected error |
| UniqueViolation.PlainErrorByOwnCode | tests/isUniqueViolation.test.ts:5-26 | a plain error is a unique violation exactly when its own code is 23505 |
| UniqueViolation.WrappedErrorByCause | tests/isUniqueViolation.test.ts:28-58 | a `QueryError` with a cause is judged by the cause's code alone |
| UniqueViolation.UnwrappedQueryErrorByOwnCode | tests/isUniqueViolation.test.ts:60-82 | a `QueryError` without a cause is judged by a code set on it directly |
| UniqueViolation.LibraryErrorsAreNot | src/isUniqueViolation.ts:12-13 | errors raised by the library itself carry no code and are never unique violations |
| UniqueViolation.OneLevelOnly | src/isUniqueViolation.ts:8-10 | only one level of wrapping is looked through: a `QueryError` caused by a wrapped violation is not recognised |
| MapOneColumn.Pick | src/mapOneColumn.ts:6-13 | reading one column fails exactly when the index is above the last column, with that index and the maximum; a negative index reads `undefined` |
| MapOneColumn.MapOneColumn | src/mapOneColumn.ts:4-15 | succeeds iff every row has the column; the result is then one value per row, in order; on failure some row's own error is the result |
| MapOneColumn.TailFailure | src/mapOneColumn.ts:5 | a failing row in the tail makes the whole list fail with that row's error |
| MapOneColumn.ExampleColumns | tests/mapOneColumn.test.ts:6-42 | the test examples: picking a column, no rows, and a missing column index |
| PrepareValue.Matching | src/prepareJavascriptValue.ts:17 | the matching indices are exactly the types whose matcher accepts the value, in registration order |
| PrepareValue.FilterMatching | src/prepareJavascriptValue.ts:17 | the filter calls every matcher once, in order, and keeps exactly the matching types |
| PrepareValue.PrepareJavascriptValue | src/prepareJavascriptValue.ts:11-29 | no match gives the driver's own preparation of the value and `seen`; several give an error; exactly one gives that type's conversion; every matcher is called |
| PrepareValue.NoneMatching | src/prepareJavascriptValue.ts:19-21 | the driver's preparation is used exactly when no matcher accepts |
| PrepareValue.ConverterUsedIffOnlyMatch | src/prepareJavascriptValue.ts:23-28 | a converter is used iff its type is the only one whose matcher accepts |
| Queryable.DebugFlag | src/QueryableConnection.ts:18-21 | debug mode is on only when the option is exactly `true` |
| Queryable.FailureError | src/QueryableConnection.ts:63-72 | without debug the driver's error passes through; with debug it is a `QueryError` of the caller's arguments with the driver's message and the driver's error as cause |
| Queryable.Query | src/QueryableConnection.ts:57-74 | the driver's result is returned unchanged; a driver failure becomes the error above |
| Queryable.Normalise | src/QueryableConnection.js:63-65 | the Flow `query` sends a config with the same text; a string's values travel with it; a config is sent as is |
| Queryable.NormalisedErrorAgrees | src/QueryableConnection.js:58-79 | wrapping the caller's arguments or the normalised config records the same query and values |
| Queryable.GetRows | src/QueryableConnection.ts:86-90 | the rows of the result, or the query's error |
| Queryable.FindOne | src/QueryableConnection.ts:23-35 | no row gives `null`, one row gives it, more give `OneRowExpectedError` with the count; a query error passes through |
| Queryable.GetRow | src/QueryableConnection.ts:76-84 | exactly one row gives it; any other count gives `OneRowExpectedError` with that count |
| Queryable.FindOneAgreesWithGetRow | src/QueryableConnection.ts:23-84 | `findOne` and `getRow` return the same row; `getRow` fails with count 0 exactly where `findOne` gives `null`; otherwise they fail alike |
| Queryable.ErrorArguments | src/QueryableConnection.ts:37-49 | the caller's error is built from the config's values, or from none |
| Queryable.GetOne | src/QueryableConnection.ts:37-49 | a row passes through; a wrong row count becomes the caller's error; any other error is rethrown unchanged |
| Queryable.GetOneTranslates | src/QueryableConnection.ts:37-49 | over a driver answer: one row gives it, any other count gives the caller's error, and a driver failure is what `query` throws |
| Queryable.WrappingKeepsUniqueViolation | src/QueryableConnection.ts:63-72 | the debug wrapping does not change whether a driver error is recognised as a unique violation |
| Queryable.InsertStreamCollector | src/QueryableConnection.ts:92-102 | the stream's collector is new for the table; the suffix and batch size are overridden only when supplied, the size clamped as `setBatchSize` does |
| BatchCollector.EffectiveBatchSize | src/collectors/BatchCollector.ts:18-20 | for an integer request, the batch size is always within 1..1000; a requested size in that range is kept, any other integer or nothing gives 1000 |
| BatchCollector.LastInternal | src/collectors/BatchCollector.ts:49-52 | the promise a new flush awaits is that of the most recent internal flush, or none when there was none |
| BatchCollector.Init | src/collectors/BatchCollector.ts:15-25 | a new collector has the clamped size, no items, no flushes, no error and count 0, and satisfies the invariant |
| BatchCollector.Add | src/collectors/BatchCollector.ts:35-43 | with a latched error `add` throws it and changes nothing; otherwise the item is buffered, and a full batch goes to a new internal flush that awaits the previous one; the buffer never reaches the batch size |
| BatchCollector.Flush | src/collectors/BatchCollector.ts:45-52 | an explicit flush takes the whole buffer, awaits the last internal flush, and is not itself awaited by later flushes |
| BatchCollector.AddConserves | src/collectors/BatchCollector.ts:39-42 | `add` loses and duplicates nothing: the flushed and buffered items are the old ones plus the new item, in order (none on a latched error) |
| BatchCollector.FlushConserves | src/collectors/BatchCollector.ts:50-52 | `flush` moves the buffer into a job without losing or reordering items |
| BatchCollector.AddAllCuts | src/collectors/BatchCollector.ts:35-43 | adding many items cuts full internal batches of exactly the batch size, keeps the remainder buffered, and keeps earlier jobs |
| BatchCollector.AddAllConserves | src/collectors/BatchCollector.ts:35-43 | adding many items queues every one of them in order |
| BatchCollector.Resume | src/collectors/BatchCollector.ts:53-59 | after its predecessor settles, an explicit flush with a latched error rejects and sends nothing; an empty batch settles without a statement; any other batch issues its statement |
| BatchCollector.Complete | src/collectors/BatchCollector.ts:59-66 | a success adds the reported row count; a failure latches the error (replacing an earlier one), resolves an internal flush and rejects an explicit one |
| BatchCollector.SentBatches | src/collectors/BatchCollector.ts:57-59 | every issued statement carries a non-empty batch |
| BatchCollector.RunInv | src/collectors/BatchCollector.ts:35-68 | every run keeps the invariant: each flush awaits the last earlier internal one, statements go out in creation order, and the count is the sum of the reported row counts |
| BatchCollector.OneInternalInFlight | src/collectors/BatchCollector.ts:51-53 | two internal flushes never have statements in flight at once |
| BatchCollector.RunKeepsError | src/collectors/BatchCollector.ts:61-66 | once latched, an error is never cleared |
| BatchCollector.RunKeepsSettlement | src/collectors/BatchCollector.ts:49-68 | a settled flush stays settled with the same outcome |
| BatchCollector.LatchedFlushRejects | src/collectors/BatchCollector.ts:54-56 | an explicit flush called after an error was latched rejects whenever it settles, and its items are never sent |
| Collectors.NewInsertCollector | src/collectors/BatchInsertCollector.ts:15-18 | the batch size option goes to the base clamp, and the suffix defaults to empty |
| Collectors.NewDeleteCollector | src/collectors/BatchDeleteCollector.ts:28-31 | the batch size option goes to the base clamp, and the key column defaults to `id` |
| Collectors.InsertStatements | src/collectors/BatchInsertCollector.ts:20-22 | one insert per sent batch, with the table, exactly the batch's rows in order, and the suffix |
| Collectors.DeleteStatements | src/collectors/BatchDeleteCollector.ts:33-35 | one delete per sent batch, with the table, the key column and exactly the batch's keys |
| Collectors.BatchSizeClamp | tests/BatchDeleteCollector.test.ts:35-49 | 0, a negative size and 1001 fall back to 1000; 1 and 1000 are kept |
| Collectors.BatchSizeIdempotent | src/collectors/BatchCollector.ts:18-20 | clamping an effective batch size again changes nothing |
| Collectors.DeleteFiveKeysInBatchesOfTwo | tests/BatchDeleteCollector.test.ts:70-113 | five keys with batch size 2 give three deletes, of 2, 2 and 1 keys, and the count is the sum of the reported counts |
| Collectors.DeleteUsesKeyName | tests/BatchDeleteCollector.test.ts:115-133 | a configured key column is used in the delete |
| Collectors.FailedBatchLatches | src/collectors/BatchCollector.ts:36-38 | after a batch fails, the next `add` throws the batch's error |
| Collectors.LatchedErrorIsOverwritten | src/collectors/BatchCollector.ts:61-66 | a second failing batch replaces the latched error |
| Collectors.InsertUsesSuffix | tests/BatchInsertCollector.test.ts:66-88 | a configured suffix is carried by every insert |
| LegacyInsertCollector.New | src/BatchInsertCollector.ts:17-27 | a new collector has batch size 1000, an empty suffix, no rows, no batches and count 0 |
| LegacyInsertCollector.SetBatchSize | src/BatchInsertCollector.ts:29-34 | an integer size of at most 0 or above 1000 becomes 1000, any other is kept, and nothing else changes |
| LegacyInsertCollector.SetQuerySuffix | src/BatchInsertCollector.ts:36-39 | the suffix is replaced and nothing else changes |
| LegacyInsertCollector.Sent | src/BatchInsertCollector.ts:68 | one insert per flushed batch, with the table, the batch's rows and the suffix it was flushed with; under the collector invariant no insert is issued without rows |
| LegacyInsertCollector.Flush | src/BatchInsertCollector.ts:59-66 | an empty buffer changes nothing; otherwise the rows become a pending batch, one insert is issued and the buffer empties |
| LegacyInsertCollector.Add | src/BatchInsertCollector.ts:45-57 | the row joins the open batch named by the returned handle; the first row schedules a deferred flush; reaching the batch size flushes at once |
| LegacyInsertCollector.Tick | src/BatchInsertCollector.ts:49-51 | a deferred flush flushes whatever is buffered by the time it runs |
| LegacyInsertCollector.Complete | src/BatchInsertCollector.ts:67-73 | a success resolves the batch and adds the reported row count; a failure rejects it and changes nothing else |
| LegacyInsertCollector.RunInv | src/BatchInsertCollector.ts:45-75 | every run keeps the invariant: the count is the sum of the resolved batches' counts |
| LegacyInsertCollector.ClampsAgree | src/BatchInsertCollector.ts:29-34 | this collector and the newer base class clamp every integer size alike |
| LegacyInsertCollector.AddedRowStaysInItsBatch | src/BatchInsertCollector.ts:45-57 | whatever happens later, a row stays in the batch whose promise `add` returned |
| LegacyInsertCollector.CompleteSettlesItsHandle | src/BatchInsertCollector.ts:67-73 | a driver answer settles the promises of its own batch and no other |
| LegacyInsertCollector.NoLatch | src/BatchInsertCollector.ts:71-73 | a failed batch latches nothing: a later row is buffered as before and sent by the next flush |
| LegacyInsertCollector.FiveRowsCountFour | tests/BatchInsertCollector.test.ts:100-114 | five rows, one deferred flush and a server count of 4 give an inserted count of 4 |
| LegacyInsertCollector.BatchesOfTwo | tests/BatchInsertCollector.test.ts:30-52 | batch size 2 sends two full batches at once and the rest on the explicit flush |
| DeleteStream.New | src/streams/DatabaseDeleteStream.ts:7-13 | the high-water mark is the collector's batch size |
| DeleteStream.Write | src/streams/DatabaseDeleteStream.ts:15-22 | a write is an `add`; it is acknowledged unless `add` throws the latched error, which fails the stream |
| DeleteStream.End | src/streams/DatabaseDeleteStream.ts:24-26 | ending issues one explicit flush and waits for it |
| DeleteStream.Finish | src/streams/DatabaseDeleteStream.ts:26-33 | a resolved final flush emits `deleting_finished` with the count; a rejected one fails the stream with its error |
| DeleteStream.FinalFlushSettlesAll | src/streams/DatabaseDeleteStream.ts:26 | when the final flush has settled, so has every earlier flush |
| DeleteStream.RunInv | src/streams/DatabaseDeleteStream.ts:15-34 | every run keeps the stream's invariant |
| DeleteStream.EmitsOnce | src/streams/DatabaseDeleteStream.ts:24-34 | at most one event is emitted; `deleting_finished` only after every flush settled and with the final count; a failed end emits only its error |
| DeleteStream.SevenKeysBatchOfTwo | tests/streams/DatabaseDeleteStream.test.ts:39-54 | seven keys with batch size 2 cut three full batches of two while writing, in order; the end flushes the seventh key explicitly |
| DeleteStream.WritesAreAdds | src/streams/DatabaseDeleteStream.ts:15-22 | writing keys with no latched error is a run of `add` calls, each acknowledged |
| InsertStream.New | src/streams/DatabaseInsertStream.ts:10-18 | the high-water mark is the collector's batch size, with no items counted and no promises recorded |
| InsertStream.Write | src/streams/DatabaseInsertStream.ts:27-39 | a write adds the row and records its batch's promise; at the high-water mark it waits for all recorded promises and starts afresh |
| InsertStream.End | src/streams/DatabaseInsertStream.ts:41-44 | ending flushes and waits for every recorded batch; the final flush's batch is already among them, because the stream invariant keeps the open batch's handle among the recorded ones whenever rows are buffered |
| InsertStream.Resolve | src/streams/DatabaseInsertStream.ts:44-48 | when every awaited batch resolved, a waiting write is acknowledged, or the end emits `inserting_finished` with the count |
| InsertStream.Reject | src/streams/DatabaseInsertStream.ts:36-38 | when an awaited batch failed, the waiting write or the end fails the stream with that batch's error |
| InsertStream.RunInv | src/streams/DatabaseInsertStream.ts:20-52 | every run keeps the stream's invariant |
| InsertStream.EmitsOnce | src/streams/DatabaseInsertStream.ts:41-52 | at most one event is emitted; `inserting_finished` only after every batch resolved and with the final count; a failed end emits only its error |
| InsertStream.SecondWriteWaits | src/streams/DatabaseInsertStream.ts:29-34 | with batch size 2 the second write sends the batch and waits for it |
| InsertStream.WaitResolvesThenFinishes | tests/streams/DatabaseInsertStream.test.ts:58-82 | when the server takes both rows the write resolves, and the end emits `inserting_finished` with 2 |
| InsertStream.WaitRejectsTheWrite | tests/streams/DatabaseInsertStream.test.ts:84-102 | when the batch fails, the waiting write fails the stream with the batch's error |
| Transactions.NewTx | src/Transaction.ts:29-36 | a transaction starts with the supplied savepoint counter, or 0, no cursor and no insert streams |
| Transactions.Validate | src/Transaction.ts:102-106 | the leak check fails exactly when the counter of unfinished insert streams is positive, and reports it |
| Transactions.TxQuery | src/Transaction.ts:71-77 | with a cursor open a query is refused without reaching the connection; otherwise it is issued and fails exactly when the database fails |
| Transactions.StreamQuery | src/Transaction.ts:79-100 | with a cursor open it is refused; otherwise the cursor is submitted, and only a successful submission marks the cursor open |
| Transactions.NestedTx | src/Transaction.ts:42-69 | a nested transaction leaves the parent with only its savepoint counter incremented |
| Transactions.NestedSuccess | src/Transaction.ts:45-60 | a nested transaction succeeds iff the SAVEPOINT, the body, the leak check and the RELEASE all succeed, and its trace is then exactly these statements around the body's |
| Transactions.NestedFailureRollsBack | src/Transaction.ts:62-64 | a failure after the SAVEPOINT issues ROLLBACK TO that savepoint and rethrows the original error, or the rollback's own error |
| Transactions.SavepointFailureNotRolledBack | src/Transaction.ts:45-47 | a failing SAVEPOINT is not rolled back, and its error is thrown |
| Transactions.NestedBlockedByCursor | src/Transaction.ts:47 | with a cursor open the SAVEPOINT is refused, and no statement is issued |
| Transactions.CursorGuard | src/Transaction.ts:72-97 | after a cursor opens, queries and cursors are refused until the cursor ends, errors or closes |
| Transactions.StepsCountUnfinished | src/Transaction.ts:108-117 | the counter of unfinished insert streams equals the number opened and not yet finished |
| Transactions.LeakCheckCountsOpenStreams | src/Transaction.ts:102-117 | a nested transaction's leak check fails exactly when its body left insert streams unfinished, and reports how many |
| Transactions.StepsNamesAbove | src/Transaction.ts:45-53 | every savepoint a body names is numbered above its transaction's starting counter |
| Transactions.NestedNamesAbove | src/Transaction.ts:45-53 | a nested transaction and its child name only savepoints above the parent's counter, the child's above the new savepoint |
| Transactions.StepsBalanced | src/Transaction.ts:43-68 | a body's trace has only statements and lock events, gives the lock back as often as it takes it, and has no lock at all in the Flow version |
| Transactions.NestedBalanced | src/Transaction.ts:43-68 | a nested transaction takes the lock first and gives it back last, on every path |
| Transactions.SiblingsCountNotDepth | src/Transaction.js:30 | sibling nested transactions number their savepoints by count, not by depth |
| Transactions.InsertStreamLeakCheck | tests/Transaction.test.ts:62-99 | a finished insert stream lets the savepoint be released; an unfinished one rolls it back with the count |
| Transactions.SavepointStatementTexts | tests/Transaction.test.ts:16-35 | savepoint statements name `savepoint<n>` |
| Clients.TransactionAsWritten | src/Client.ts:51-74 | as written: a failed checkout issues nothing, and a failing ROLLBACK ends the trace without a release |
| Clients.Transaction | src/Client.ts:51-74 | corrected: a checked-out connection is always released last, with the body's error |
| Clients.TransactionReleasesOnce | src/Client.ts:65-71 | the corrected transaction checks out one connection and releases it exactly once, last |
| Clients.TransactionCommitsOrRollsBack | src/Client.ts:54-73 | BEGIN comes first on every path; the transaction commits exactly when BEGIN, the callback, the leak check and COMMIT succeed; otherwise ROLLBACK is issued and the failure's own error, whether from BEGIN, the callback, the leak check or COMMIT, is thrown and passed to the release, unless ROLLBACK fails and its error is thrown instead |
| Clients.AttemptHasNoPoolEvents | src/Client.ts:57-60 | nested transactions reuse the same connection: the body makes no checkout or release |
| Clients.AgreeUnlessRollbackFails | src/Client.ts:69-73 | the written and corrected transactions agree whenever ROLLBACK does not fail |
| Clients.RollbackFailureLeaksConnection | src/Client.ts:70-71 | a body that throws on a connection whose ROLLBACK also fails leaves the connection checked out |
| Clients.RollbackFailureNeverReleases | src/Client.ts:70-71 | as written, whenever ROLLBACK fails the connection is never released |
| Clients.StreamQueryAsWritten | src/Client.ts:82-95 | as written: a submission that throws leaves the connection checked out with no listener |
| Clients.StreamQuery | src/Client.ts:82-95 | corrected: a checked-out connection is either listened on or released with the submission's error |
| Clients.AllSignalled | src/Client.ts:85-93 | cursor signals never change whether a connection was checked out |
| Clients.ReleasedOnFirstSignal | src/Client.ts:85-93 | the connection is released exactly once, with the first signal's error |
| Clients.IgnoredOnceDetached | src/Client.ts:85-88 | after the listener detached itself, further signals change nothing |
| Clients.StreamQueryReleasesOnce | tests/Client.streamQuery.test.ts:25-107 | with the correction, every checked-out connection is released exactly once, by the first signal or by a failed submission |
| Clients.SubmitFailureLeaksConnection | src/Client.ts:83 | a submission that throws leaves the connection unreleased whatever signals follow |
| Clients.StreamQueryAgreesUnlessSubmitThrows | src/Client.ts:82-93 | the written and corrected `streamQuery` agree whenever the submission does not throw |

## Left out

- The `pg` driver, the pool and the wire protocol are not modelled. Each is
  an oracle: a statement is answered with an error or a row count, and a
  checkout succeeds or fails. The database's answer depends only on the
  statement, not on earlier statements.
- The SQL strings built by `pg-async` templates (`$identifier`,
  `$multiInsert`, `$raw`, `$columns`) are not modelled. A statement records
  its table, rows or keys, key column and suffix.
- `QueryableConnection.insert`, `Client` construction, `end`, type
  registration and the read cursor's row data are not modelled. They are
  plumbing to the driver.
- Real concurrency and the blocking of the nested-transaction lock are not
  modelled. Transaction callbacks run sequentially, and the lock appears
  only as acquire and release events that the proofs balance.
- The values a transaction callback returns pass through unchanged and are
  not modelled. A callback is a program of steps that may throw.
- Error message texts are not modelled. An error records its kind and its
  data, such as the row count or the unfinished-stream count.
- Debug-mode stack traces are not modelled.
- BatchCollector.EffectiveBatchSize: the requested size is an integer in the
  model, but a JavaScript `number` can also be NaN or fractional. In
  `src/collectors/BatchCollector.ts:18-20` a NaN request gives 1000, because
  `NaN > 0` is false. A fractional request such as 0.5 is kept, so the
  1..1000 integer bound holds only for integer requests.
- LegacyInsertCollector.SetBatchSize: sizes are integers in the model. In
  `src/BatchInsertCollector.ts:29-31` a NaN size passes both comparisons and
  is kept, so the size test at :52 never triggers a flush. A fractional size
  such as 0.5 is also kept. Neither case is modelled.
- LegacyInsertCollector.ClampsAgree: holds for every integer size only. For
  NaN the two clamps differ: the base class gives 1000 and this collector
  keeps NaN.
- MapOneColumn.Pick: the column index is an integer in the model. A
  JavaScript index can also be NaN or fractional, and these are not
  modelled. In `src/mapOneColumn.ts:9-13` NaN and a fractional index no
  greater than the last one pass the check and read `undefined`. A
  fractional index above the last one throws, as an integer one does.
- The `seen` argument of `prepareJavascriptValue` is passed to the driver's
  own preparation unchanged. Its contents are not modelled.
- The batch inserts of an insert stream opened in a transaction are
  modelled by `InsertStream` and `LegacyInsertCollector`, not in the
  transaction's trace. In the source they go through the transaction's
  guarded `query`, so they fail while a cursor is open. The transaction
  model records only the opening and finishing of such a stream.
- Transactions.StreamQuery: in the Flow version a cursor submission that
  throws is wrapped with the cursor's text and no values. The driver-side
  cursor object is not modelled.
- InsertStream.Reject: when several awaited batches have failed,
  `Promise.all` rejects with whichever settles first. The model lets the
  event choose among the failed batches.
- BatchCollector.Complete: the batch statements of the pool-backed
  connection may be answered in any order. The model allows every order,
  so its properties are weaker than a single-connection ordering would give.
- Some files come from different revisions and do not fit together:
  - `src/Client.js` passes an options object where `src/Transaction.js` and
    `src/QueryableConnection.js` take positional arguments and a boolean
    debug flag;
  - `src/streams/DatabaseInsertStream.ts` calls `getBatchSize`, which
    `src/BatchInsertCollector.ts` does not define, so the model takes the
    collector's batch size as the high-water mark;
  - the stream tests construct collectors with the newer options object.

  The model follows each file's own logic.
- The latched error of `BatchCollector` is the LAST failure, not the first.
  The code assigns it on every failure (`src/collectors/BatchCollector.ts:61-66`),
  and `Collectors.LatchedErrorIsOverwritten` states it.

## Findings

| source | as written | input that shows it | evidently intended | confidence | as-written member | corrected member |
|---|---|---|---|---|---|---|
| src/Client.ts:69-73 | the catch block awaits ROLLBACK before releasing the connection, so a ROLLBACK that throws skips the release | a transaction callback that throws, on a connection where ROLLBACK also fails | the connection is released with the error on every path | medium, not executed | Clients.RollbackFailureLeaksConnection | Clients.Transaction |
| src/Client.ts:82-93 | the cursor is submitted before the release listeners are attached, so a submission that throws leaves the connection checked out | a driver whose `query` throws when given the cursor, as tests/Client.streamQuery.test.ts:53-80 arranges | the connection is released with the submission's error, which that test expects | high, not executed | Clients.SubmitFailureLeaksConnection | Clients.StreamQuery |
