/** Failure-compatible wrappers shared by the modules of this model. */
module Wrappers {

  /** A value that may be absent; stands in for a nullable reference. */
  datatype Option<+T> = None | Some(value: T)

  /** The outcome of an operation that can raise an exception: either its value or the exception's message. */
  datatype Result<+T> = Ok(value: T) | Err(message: string)
}
