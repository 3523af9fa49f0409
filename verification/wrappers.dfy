/** Small failure-carrying datatypes shared by the whole model. */
module Wrappers {

  /** A value that may be absent: JavaScript's `undefined` where the source tests for it. */
  datatype Option<+T> = None | Some(value: T) {

    /** The carried value, or `default` when there is none. */
    function GetOr(default: T): T {
      match this
      case Some(v) => v
      case None => default
    }
  }

  /** Either a value or the error a call threw. */
  datatype Result<+T, +E> = Ok(value: T) | Err(error: E)
}
