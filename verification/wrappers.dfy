/** Failure-compatible wrappers used throughout the model: a JavaScript value
    that may be `undefined` is an `Option`, a call that may throw is a `Result`. */
module Wrappers {

  datatype Option<+T> = None | Some(value: T) {

    /** The wrapped value, or `default` when there is none (JavaScript's `x ?? d`). */
    function GetOr(default: T): T {
      match this
      case Some(v) => v
      case None => default
    }
  }

  /** `Success` is a normal return, `Failure` carries what was thrown. */
  datatype Result<+R, +E> = Success(value: R) | Failure(error: E)
}
