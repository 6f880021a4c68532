/** Failure-carrying datatypes shared by the model. */
module Wrappers {

  /** A value that may be absent: a nullable column or a field missing from a request body. */
  datatype Option<+T> = None | Some(value: T)

  /** The outcome of an endpoint: a value, or the error it answers with. */
  datatype Result<+T, +E> = Ok(value: T) | Err(error: E)
}
