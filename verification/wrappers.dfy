/** Failure-carrying datatypes used across the model. */
module Wrappers {

  /** A value that may be absent: a missing JSON key, a failed parse, a failed load. */
  datatype Option<+T> = None | Some(value: T)

  /** Either a value or the error that stopped the computation. */
  datatype Result<+T, +E> = Ok(value: T) | Err(error: E)
}
