/**
  `isUniqueViolation` of `src/isUniqueViolation.ts` (the Flow file
  `src/isUniqueViolation.js` is the same check): whether an error is
  PostgreSQL's `unique_violation`, SQLSTATE 23505 in Appendix A of the
  PostgreSQL manual. A debug-mode `QueryError` is unwrapped once, to its
  cause, when it has one.
 */
module UniqueViolation {
  import opened Wrappers
  import opened Errors

  /** SQLSTATE `unique_violation`. */
  const UniqueViolationCode := "23505"

  /** The error whose code is inspected: the cause of a `QueryError` that has one, otherwise the error itself. */
  function Inspected(e: Error): (d: Error)
    ensures e.QueryFailure? && e.query.causedBy.Some? ==> d == e.query.causedBy.value
    ensures !(e.QueryFailure? && e.query.causedBy.Some?) ==> d == e
  {
    if e.QueryFailure? && e.query.causedBy.Some? then e.query.causedBy.value else e
  }

  function IsUniqueViolation(e: Error): (b: bool)
    ensures b ==> CodeOf(Inspected(e)).Some?
  {
    var code := CodeOf(Inspected(e));
    code.Some? && code.value == UniqueViolationCode
  }

  /** A plain error is judged by its own code alone. */
  lemma PlainErrorByOwnCode(message: string, code: Option<string>)
    ensures IsUniqueViolation(Failure(message, code)) <==> code == Some(UniqueViolationCode)
  {
  }

  /** A `QueryError` with a cause is judged by the cause's code; its own code is ignored. */
  lemma WrappedErrorByCause(q: QueryError, cause: Error)
    requires q.causedBy == Some(cause)
    ensures IsUniqueViolation(QueryFailure(q)) <==> CodeOf(cause) == Some(UniqueViolationCode)
  {
  }

  /** A `QueryError` without a cause is judged by a code assigned to it directly. */
  lemma UnwrappedQueryErrorByOwnCode(q: QueryError)
    requires q.causedBy.None?
    ensures IsUniqueViolation(QueryFailure(q)) <==> q.code == Some(UniqueViolationCode)
  {
  }

  /** Errors of the library's own kinds carry no code and are never a unique violation. */
  lemma LibraryErrorsAreNot(e: Error)
    requires !e.Failure? && !e.QueryFailure?
    ensures !IsUniqueViolation(e)
  {
  }

  /**
    Only one level is unwrapped: a `QueryError` caused by another
    `QueryError` whose cause is a unique violation is not recognised.
   */
  lemma OneLevelOnly(outer: QueryError, inner: QueryError, violation: Error)
    requires CodeOf(violation) == Some(UniqueViolationCode)
    requires inner.causedBy == Some(violation) && inner.code.None?
    requires outer.causedBy == Some(QueryFailure(inner))
    ensures IsUniqueViolation(QueryFailure(inner))
    ensures !IsUniqueViolation(QueryFailure(outer))
  {
  }
}
