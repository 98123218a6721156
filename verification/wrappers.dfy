/** Nullable values and error-or-value results, shared by the model. */
module Wrappers {

  /** A value that may be absent: a NULL column, an empty aggregate, a missing list element. */
  datatype Option<+T> = None | Some(value: T) {

    /** The wrapped value, or `default` when absent. */
    function GetOr(default: T): T {
      match this
      case Some(v) => v
      case None => default
    }
  }

  /** The outcome of an operation that either produces a value or raises an error. */
  datatype Result<+T, +E> = Ok(value: T) | Err(error: E)
}
