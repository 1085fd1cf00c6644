/** Failure-compatible wrappers used by the standings model. */
module Wrappers {

  /** A value that may be absent; stands in for Python's `None`. */
  datatype Option<+T> = None | Some(value: T)

  /** The outcome of an operation that can fail with an error value. */
  datatype Result<+R, +E> = Success(value: R) | Failure(error: E)
}
