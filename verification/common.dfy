/** Failure-carrying wrappers shared by every module of the Jira adapter model. */
module Common {

  /** A value that may be absent: Go's pointer fields and `v, ok :=` lookups. */
  datatype Option<+T> = None | Some(value: T) {
    function GetOr(default: T): T {
      match this
      case Some(v) => v
      case None => default
    }
  }

  /** A value or the error that prevented computing it: Go's `(T, error)` pair. */
  datatype Result<+T, +E> = Success(value: T) | Failure(error: E)

  /** Success or an error, with no value: Go's lone `error` return. */
  datatype Outcome<+E> = Pass | Fail(error: E)
}
