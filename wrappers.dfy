/** Option, Outcome and Result values shared by the rest of the model. */
module Wrappers {

  /** A value that may be absent (TypeScript's `T | undefined`). */
  datatype Option<+T> = None | Some(value: T)

  /** The outcome of a check that either passes or reports why it failed. */
  datatype Outcome<+E> = Pass | Fail(error: E)

  /** A value or the error that stood in its place (a thrown exception). */
  datatype Result<+R, +E> = Success(value: R) | Failure(error: E)
}
