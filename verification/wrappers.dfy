/** Failure-compatible wrappers used across the model. */
module Wrappers {

  /** A value that may be absent; `None` plays the part of JavaScript's `undefined`. */
  datatype Option<+T> = None | Some(value: T)

  /** Either a value or the error that was thrown instead of returning it. */
  datatype Result<+R, +E> = Success(value: R) | Failure(error: E)
}
