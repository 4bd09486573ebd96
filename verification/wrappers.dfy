/** Failure-compatible wrappers shared by every module of the model. */
module Wrappers {

  /** `Some(v)` for a present value, `None` for JavaScript's `null`/`undefined`. */
  datatype Option<+T> = None | Some(value: T) {

    /** The value, or `d` when absent (the `??` operator). */
    function GetOr(d: T): T {
      match this
      case Some(v) => v
      case None => d
    }
  }

  /** The outcome of an operation that can fail with an error of type `E`. */
  datatype Result<+T, +E> = Ok(value: T) | Err(error: E)
}
