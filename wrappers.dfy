/** Optional values and results with an error message. */
module Wrappers {

  /** A value that may be absent: the model of a JavaScript `undefined` field. */
  datatype Option<+T> = None | Some(value: T) {

    /** The value when present, the given default otherwise (JavaScript `x || d`). */
    function GetOr(default: T): T {
      match this
      case Some(v) => v
      case None => default
    }
  }

  /** The outcome of a store operation: a value, or the error it raised. */
  datatype Result<+T, +E> = Ok(value: T) | Err(error: E)
}
