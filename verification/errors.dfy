/**
  The errors the library throws or passes through. A plain `Error` of the
  driver (or of user code) may carry a PostgreSQL SQLSTATE in its `code`
  property; `QueryError` is the debug-mode wrapper of `src/errors/QueryError.ts`.
 */
module Errors {
  import opened Wrappers
  import opened Values

  datatype Error =
      /** A plain `Error`, such as a database error, with its message and optional `code`. */
    | Failure(message: string, code: Option<string>)
      /** An instance of `QueryError`. */
    | QueryFailure(query: QueryError)
      /** `OneRowExpectedError(count)`. */
    | OneRowExpected(count: nat)
      /** `NonExistentColumnIndexError(requested, maximumAvailable)`. */
    | NonExistentColumnIndex(requested: int, maximumAvailable: int)
      /** "There are more than one value converters for ..." from the value preparer. */
    | MultipleConverters(value: Value)
      /** "Cannot run another query while one is still in progress. Possibly opened cursor." */
    | CursorInProgress
      /** "Cannot commit transaction (or release savepoint) because there is N unfinished insert streams." */
    | UnfinishedInsertStreams(unfinished: int)
      /** "Error reason (caused by) was already set." */
    | CausedByAlreadySet
      /** An instance of a caller-supplied error class, built from the given arguments. */
    | Custom(className: string, args: seq<Value>)

  /**
    The fields of a `QueryError`: the message, the failed query's text and
    values, the `code` property (absent unless someone assigns it) and the
    `causedBy` error.
   */
  datatype QueryError = QueryError(
    message: string,
    query: string,
    values: Option<seq<Value>>,
    code: Option<string>,
    causedBy: Option<Error>)

  /** The `code` property of an error, when it has one. */
  function CodeOf(e: Error): Option<string> {
    match e
    case Failure(_, code) => code
    case QueryFailure(q) => q.code
    case _ => None
  }

  /** The `message` of a plain error or of a `QueryError`; other kinds are not inspected. */
  function MessageOf(e: Error): string {
    match e
    case Failure(message, _) => message
    case QueryFailure(q) => q.message
    case _ => ""
  }
}
