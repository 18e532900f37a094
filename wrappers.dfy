/** Failure-carrying values used throughout the model in place of JavaScript exceptions. */
module Wrappers {

  datatype Option<+T> = None | Some(value: T)

  /** The outcome of an operation that either yields a value or throws `error`. */
  datatype Result<+R, +E> = Ok(value: R) | Err(error: E)

  /** The outcome of an operation that yields nothing or throws `error`. */
  datatype Outcome<+E> = Pass | Fail(error: E)
}
