/** Optional values and success/failure results shared by every module of the model. */
module Wrappers {

  /** A value that may be absent: `undefined`/`null` in the source. */
  datatype Option<T> = None | Some(value: T) {
    /** The value, or `default` when absent. */
    function GetOr(default: T): T {
      match this
      case Some(v) => v
      case None => default
    }
  }

  /** The outcome of an operation that either resolves with a value or rejects with an error. */
  datatype Result<T, E> = Ok(value: T) | Err(error: E)
}
