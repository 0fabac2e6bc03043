/**
  The query helpers of `QueryableConnection` (`src/QueryableConnection.ts`
  and its Flow twin `src/QueryableConnection.js`): the debug flag, the
  error wrapping in `query`, the row-count checks of `findOne`, `getRow` and
  `getOne`, and the collector `insertStream` configures. The driver's answer
  to a query is an input: its rows and row count, or the error it threw.
 */
module Queryable {
  import opened Wrappers
  import opened Values
  import opened Errors
  import opened QueryErrors
  import opened UniqueViolation
  import Legacy = LegacyInsertCollector

  /**
    The `debug` flag of a connection: on only when the option is exactly
    `true`. The Flow constructor takes the flag itself, defaulting to `false`;
    an absent option is `None` in both.
   */
  function DebugFlag(option: Option<bool>): (debug: bool)
    ensures debug <==> option == Some(true)
  {
    option.Some? && option.value
  }

  /**
    What `query` throws when the driver fails with `e`. Without debug the
    driver's error passes through untouched. With debug it is a `QueryError`
    made from the caller's arguments before the query was sent, carrying the
    driver's message and the driver's error as its cause.
   */
  function FailureError(debug: bool, input: QueryInput, values: Option<seq<Value>>, e: Error): (thrown: Error)
    ensures !debug ==> thrown == e
    ensures debug ==> (thrown.QueryFailure?
      && thrown.query == NewQueryError(input, values).(message := MessageOf(e), causedBy := Some(e)))
  {
    if !debug then e
    else
      var q := NewQueryError(input, values).(message := MessageOf(e));
      QueryFailure(SetCausedBy(q, Some(e)).value)
  }

  /** `query`: the driver's result, or the error above when the driver throws. */
  function Query(debug: bool, input: QueryInput, values: Option<seq<Value>>, answer: Result<QueryResult, Error>)
    : (r: Result<QueryResult, Error>)
    ensures answer.Ok? ==> r == answer
    ensures answer.Err? ==> r == Err(FailureError(debug, input, values, answer.error))
  {
    match answer
    case Ok(result) => Ok(result)
    case Err(e) => Err(FailureError(debug, input, values, e))
  }

  /**
    What the Flow `query` hands the driver: a bare string becomes a
    `{text, values}` config; a config is sent as it is. The TypeScript
    `query` passes the string and the values unchanged.
   */
  function Normalise(input: QueryInput, values: Option<seq<Value>>): (sent: QueryInput)
    ensures sent.Config? && sent.text == input.text
    ensures input.Text? ==> sent.values == values
    ensures input.Config? ==> sent == input
  {
    match input
    case Text(text) => Config(text, values)
    case Config(_, _) => input
  }

  /**
    The Flow `query` wraps a failure with the caller's arguments, not the
    normalised config, but both record the same query and values.
   */
  lemma NormalisedErrorAgrees(input: QueryInput, values: Option<seq<Value>>, ignored: Option<seq<Value>>, e: Error)
    ensures FailureError(true, Normalise(input, values), ignored, e) == FailureError(true, input, values, e)
  {
  }

  /** `getRows`: the rows of the result. */
  function GetRows(result: Result<QueryResult, Error>): (r: Result<seq<Row>, Error>)
    ensures result.Ok? ==> r == Ok(result.value.rows)
    ensures result.Err? ==> r == Err(result.error)
  {
    match result
    case Ok(q) => Ok(q.rows)
    case Err(e) => Err(e)
  }

  /** `findOne`: no row is `null`, one row is that row, more is `OneRowExpectedError(count)`. */
  function FindOne(rows: Result<seq<Row>, Error>): (r: Result<Option<Row>, Error>)
    ensures rows.Err? ==> r == Err(rows.error)
    ensures rows.Ok? && |rows.value| == 0 ==> r == Ok(None)
    ensures rows.Ok? && |rows.value| == 1 ==> r == Ok(Some(rows.value[0]))
    ensures rows.Ok? && |rows.value| > 1 ==> r == Err(OneRowExpected(|rows.value|))
  {
    match rows
    case Err(e) => Err(e)
    case Ok(rs) =>
      if |rs| > 1 then Err(OneRowExpected(|rs|))
      else if |rs| == 0 then Ok(None)
      else Ok(Some(rs[0]))
  }

  /** `getRow`: exactly one row, or `OneRowExpectedError(count)`. */
  function GetRow(rows: Result<seq<Row>, Error>): (r: Result<Row, Error>)
    ensures rows.Err? ==> r == Err(rows.error)
    ensures rows.Ok? && |rows.value| == 1 ==> r == Ok(rows.value[0])
    ensures rows.Ok? && |rows.value| != 1 ==> r == Err(OneRowExpected(|rows.value|))
  {
    match rows
    case Err(e) => Err(e)
    case Ok(rs) => if |rs| != 1 then Err(OneRowExpected(|rs|)) else Ok(rs[0])
  }

  /**
    `findOne` and `getRow` agree on every answer: they return the same row,
    `getRow` fails with a zero count exactly where `findOne` returns `null`,
    and otherwise they fail alike.
   */
  lemma FindOneAgreesWithGetRow(rows: Result<seq<Row>, Error>)
    ensures forall row :: GetRow(rows) == Ok(row) <==> FindOne(rows) == Ok(Some(row))
    ensures GetRow(rows) == Err(OneRowExpected(0)) <==> FindOne(rows) == Ok(None) || rows == Err(OneRowExpected(0))
    ensures FindOne(rows).Err? ==> GetRow(rows) == Err(FindOne(rows).error)
  {
  }

  /**
    The arguments `getOne` builds the caller's error from: the config's
    values, or none when it has none. (The Flow `getOne` takes a SQL
    fragment, whose values are always present.)
   */
  function ErrorArguments(input: QueryInput): (args: seq<Value>)
    ensures input.Config? && input.values.Some? ==> args == input.values.value
    ensures !(input.Config? && input.values.Some?) ==> args == []
  {
    if input.Config? && input.values.Some? then input.values.value else []
  }

  /**
    `getOne`: `getRow`'s row; a `OneRowExpectedError` becomes an instance of
    the caller's error class built from the query's values; any other error
    is rethrown unchanged.
   */
  function GetOne(input: QueryInput, errorClass: string, row: Result<Row, Error>): (r: Result<Row, Error>)
    ensures row.Ok? ==> r == row
    ensures row.Err? && row.error.OneRowExpected? ==> r == Err(Custom(errorClass, ErrorArguments(input)))
    ensures row.Err? && !row.error.OneRowExpected? ==> r == row
  {
    match row
    case Ok(_) => row
    case Err(e) => if e.OneRowExpected? then Err(Custom(errorClass, ErrorArguments(input))) else row
  }

  /**
    The whole of `getOne` over a driver answer: a result that is not exactly
    one row turns into the caller's error, whatever the count; a driver
    failure is what `query` throws (the driver never throws a
    `OneRowExpectedError` itself).
   */
  lemma GetOneTranslates(debug: bool, input: QueryInput, errorClass: string, answer: Result<QueryResult, Error>)
    ensures var r := GetOne(input, errorClass, GetRow(GetRows(Query(debug, input, None, answer))));
      && (answer.Ok? && |answer.value.rows| == 1 ==> r == Ok(answer.value.rows[0]))
      && (answer.Ok? && |answer.value.rows| != 1 ==> r == Err(Custom(errorClass, ErrorArguments(input))))
      && (answer.Err? && !answer.error.OneRowExpected? ==> r == Err(FailureError(debug, input, None, answer.error)))
  {
  }

  /**
    Wrapping does not hide a unique violation: a driver error is recognised
    the same way whether the connection runs in debug mode or not.
   */
  lemma WrappingKeepsUniqueViolation(debug: bool, input: QueryInput, values: Option<seq<Value>>, e: Error)
    requires !e.QueryFailure?
    ensures IsUniqueViolation(FailureError(debug, input, values, e)) == IsUniqueViolation(e)
  {
  }

  /**
    The collector behind `insertStream`: a new insert collector for the
    table whose suffix and batch size are overridden only when supplied.
   */
  function InsertStreamCollector(table: string, suffix: Option<string>, batchSize: Option<int>): (c: Legacy.Collector)
    ensures c.table == table && c.rows == [] && c.batches == [] && c.count == 0 && c.ticks == 0
    ensures c.suffix == suffix.GetOr("")
    ensures batchSize.None? ==> c.batchSize == Legacy.MaxBatchInsert
    ensures batchSize.Some? ==> c.batchSize == Legacy.SetBatchSize(Legacy.New(table), batchSize.value).batchSize
    ensures Legacy.Inv(c)
  {
    var c0 := Legacy.New(table);
    var c1 := if suffix.Some? then Legacy.SetQuerySuffix(c0, suffix.value) else c0;
    if batchSize.Some? then Legacy.SetBatchSize(c1, batchSize.value) else c1
  }
}
