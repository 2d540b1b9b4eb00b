/** Option and Result, the failure-carrying values used throughout the model. */
module Wrappers {

  /** Python's `None` versus a present value. */
  datatype Option<+T> = None | Some(value: T)

  /** A value, or the error text an exception would have carried. */
  datatype Result<+T, +E> = Ok(value: T) | Err(error: E)
}
