/** Failure-carrying values shared by the webhook modules. */
module Wrappers {

  /** A value that may be absent: JavaScript's `undefined` on an optional field. */
  datatype Option<+T> = None | Some(value: T)

  /** The outcome of a step that either yields a value or throws. */
  datatype Result<+R, +E> = Success(value: R) | Failure(error: E)

  /** The outcome of a step that yields nothing but may throw. */
  datatype Outcome<+E> = Pass | Fail(error: E)
}
