/** Failure-carrying values used across the model. */
module Wrappers {

  datatype Option<+T> = None | Some(value: T)

  /** `Err` carries the message of the `UserError` the wizard raises. */
  datatype Result<+T, +E> = Ok(value: T) | Err(error: E)
}
