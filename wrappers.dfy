/** Optional values and pass/fail outcomes used throughout the model. */
module Wrappers {

  /** A value that may be absent: a nullable column, `undefined`, a failed lookup. */
  datatype Option<+T> = None | Some(value: T) {

    /** The value, or `default` when absent (the `x ?? d` of the source). */
    function GetOr(default: T): T {
      match this
      case Some(v) => v
      case None => default
    }
  }

  /** The result of an operation that either succeeds or fails with an error. */
  datatype Outcome<+E> = Pass | Fail(error: E)
}
