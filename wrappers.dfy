/** Failure-carrying return types: the model's stand-in for Java exceptions. */
module Wrappers {

  datatype Option<+T> = None | Some(value: T)

  /** A call that either yields a value or fails with an error. */
  datatype Result<+R, +E> = Success(value: R) | Failure(error: E)

  /** A call that yields nothing on success, or fails with an error. */
  datatype Outcome<+E> = Pass | Fail(error: E)
}
