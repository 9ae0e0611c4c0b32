/** Failure-carrying values used throughout the model. */
module Wrappers {

  /** A value that may be absent (a nil pointer in the Go code). */
  datatype Option<+T> = None | Some(value: T)

  /** A value or the error that replaced it (Go's `(T, error)` pair). */
  datatype Result<+T, +E> = Success(value: T) | Failure(error: E)

  /** Success or an error, with no value (Go's `error` / `diag.Diagnostics`). */
  datatype Outcome<+E> = Pass | Fail(error: E)
}
