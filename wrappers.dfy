/** Small failure-carrying datatypes shared by the model's modules. */
module Wrappers {

  /** A value that may be absent (a schema path left undefined, a failed parse). */
  datatype Option<+T> = None | Some(value: T)

  /** The outcome of an operation that either succeeds with a value or fails with an error. */
  datatype Result<+R, +E> = Ok(value: R) | Err(error: E)
}
