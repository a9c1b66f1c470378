/** Failure-carrying values used across the model: a missing value, and a
    value-or-error outcome. */
module Wrappers {

  /** A value that may be absent (the source's `false`, `null` or `undefined`). */
  datatype Option<+T> = None | Some(value: T)

  /** The outcome of an operation that can fail with an error of type E. */
  datatype Result<+T, +E> = Success(value: T) | Failure(error: E)
}
