/** Failure-carrying values used throughout the model. */
module Wrappers {

  /** A value that may be absent (a nil pointer, a lookup miss). */
  datatype Option<+T> = None | Some(value: T)

  /** A value or the error that prevented computing it. */
  datatype Result<+T, +E> = Success(value: T) | Failure(error: E)

  /** What a Go function returning only `error` reports: nil or an error. */
  datatype Outcome<+E> = Pass | Fail(error: E)
}
