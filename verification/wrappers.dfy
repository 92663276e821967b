/** Failure-carrying wrappers shared by the other modules. */
module Wrappers {

  /** A value that may be absent. */
  datatype Option<+T> = None | Some(value: T)

  /** The outcome of a step that either completes with a value or throws an error. */
  datatype Result<+T, +E> = Ok(value: T) | Err(error: E)
}
