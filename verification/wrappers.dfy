/** Failure-compatible wrappers used across the model. */
module Wrappers {

  /** An optional value: `None` stands for Python's `None` (or a sentinel). */
  datatype Option<+T> = None | Some(value: T)

  /** The outcome of an operation that may raise. */
  datatype Result<+R, +E> = Success(value: R) | Failure(error: E)
}
