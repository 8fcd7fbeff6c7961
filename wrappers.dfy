/** Failure-compatible wrappers used across the model. */
module Wrappers {

  /** An optional value: `None` stands for JavaScript's `undefined`. */
  datatype Option<+T> = None | Some(value: T) {
    function GetOr(default: T): T {
      match this
      case Some(v) => v
      case None => default
    }
  }

  /** The outcome of an operation that may throw: the error carries the message. */
  datatype Result<+R, +E> = Success(value: R) | Failure(error: E)
}
