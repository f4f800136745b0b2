/** Failure-carrying values shared by every module. */
module Wrappers {

  datatype Option<+T> = None | Some(value: T)

  /** The value a service returns, or the exception it raises. */
  datatype Result<+R, +E> = Ok(value: R) | Err(error: E)

  /** The outcome of a service that returns nothing on success. */
  datatype Outcome<+E> = Pass | Fail(error: E)
}
