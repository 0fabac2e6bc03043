/**
  `QueryError` of `src/errors/QueryError.ts`: the debug-mode error that
  records the failed query and, once, the error that caused it. The Flow
  variant `src/errors/QueryError.js` has the same constructor but a plain
  `causedBy` field that any assignment overwrites.
 */
module QueryErrors {
  import opened Wrappers
  import opened Values
  import opened Errors

  /** The message every new `QueryError` carries. */
  const FailedMessage := "Query execution failed."

  /**
    The constructor: the query text comes from either input form; the values
    come from a config's own `values` and, for a bare string, from the extra
    argument. No cause and no code are set yet.
   */
  function NewQueryError(input: QueryInput, values: Option<seq<Value>>): (q: QueryError)
    ensures q.message == FailedMessage && q.code.None? && q.causedBy.None?
    ensures q.query == input.text
    ensures input.Text? ==> q.values == values
    ensures input.Config? ==> q.values == input.values
  {
    match input
    case Text(text) => QueryError(FailedMessage, text, values, None, None)
    case Config(text, configValues) => QueryError(FailedMessage, text, configValues, None, None)
  }

  /** A string with extra values and a config with the same text and values record the same query. */
  lemma InputFormsAgree(text: string, values: Option<seq<Value>>, ignored: Option<seq<Value>>)
    ensures NewQueryError(Text(text), values) == NewQueryError(Config(text, values), ignored)
  {
  }

  /**
    The `causedBy` setter: it refuses once a cause is set and otherwise
    stores the value (an `undefined` value stores nothing). Nothing but the
    cause changes.
   */
  function SetCausedBy(q: QueryError, value: Option<Error>): (r: Result<QueryError, Error>)
    ensures q.causedBy.Some? <==> r.Err?
    ensures r.Err? ==> r.error == CausedByAlreadySet
    ensures r.Ok? ==> r.value.causedBy == value && r.value.(causedBy := q.causedBy) == q
  {
    if q.causedBy.Some? then Err(CausedByAlreadySet) else Ok(q.(causedBy := value))
  }

  /**
    The cause can be set once: a second assignment throws and the getter
    still returns the first cause.
   */
  lemma {:induction false} CausedBySetOnce(q: QueryError, first: Error, second: Option<Error>)
    requires q.causedBy.None?
    ensures SetCausedBy(q, Some(first)).Ok?
    ensures var q1 := SetCausedBy(q, Some(first)).value;
      q1.causedBy == Some(first) && SetCausedBy(q1, second) == Err(CausedByAlreadySet)
  {
  }

  /** Assigning `undefined` leaves the error without a cause, so a real cause can still be set. */
  lemma {:induction false} UndefinedCauseStaysSettable(q: QueryError, cause: Error)
    requires q.causedBy.None?
    ensures SetCausedBy(q, None) == Ok(q)
    ensures SetCausedBy(q, Some(cause)).Ok?
  {
  }

  /** The Flow variant's plain field: every assignment replaces the cause. */
  function AssignCausedBy(q: QueryError, value: Option<Error>): (r: QueryError)
    ensures r.causedBy == value && r.(causedBy := q.causedBy) == q
  {
    q.(causedBy := value)
  }

  /** With the plain field the last assignment wins, where the setter would have thrown. */
  lemma {:induction false} FlowLastAssignmentWins(q: QueryError, first: Error, second: Error)
    requires q.causedBy.None?
    ensures AssignCausedBy(AssignCausedBy(q, Some(first)), Some(second)).causedBy == Some(second)
    ensures SetCausedBy(SetCausedBy(q, Some(first)).value, Some(second)).Err?
  {
  }
}
