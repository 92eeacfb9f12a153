/** Option and Result datatypes used for optional JSON fields and for the
    exceptions that abort a reload. */
module Wrappers {

  datatype Option<+T> = None | Some(value: T) {
    /** The value, or `default` when absent (Gson's `get(object, key, default)`). */
    function GetOr(default: T): T {
      match this
      case Some(v) => v
      case None => default
    }
  }

  datatype Result<+R, +E> = Success(value: R) | Failure(error: E)

  /** The outcome of a method that either completes or throws. */
  datatype Outcome<+E> = Pass | Fail(error: E)
}
