/** Option and Result, shared by every module of the storefront model. */
module Wrappers {

  /** A value that may be absent, as a nullable database column. */
  datatype Option<+T> = None | Some(value: T)

  /** The outcome of an operation that can raise: the value, or the error it raised. */
  datatype Result<+T, +E> = Ok(value: T) | Err(error: E)
}
