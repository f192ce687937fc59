/** Option and Result, the failure-compatible wrappers the rest of the model uses. */
module Wrappers {

  /** A value that may be absent: a configuration key that is missing, a directory that does not exist. */
  datatype Option<T> = None | Some(value: T) {

    /** The wrapped value, or `default` when absent (Python's `dict.get(key, default)`). */
    function GetOr(default: T): T {
      match this
      case Some(v) => v
      case None => default
    }
  }

  /** The outcome of an operation that either produces a value or ends the process with an error. */
  datatype Result<T, E> = Ok(value: T) | Err(error: E)
}
