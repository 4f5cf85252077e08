/** Failure-carrying results shared by the modules of the model. */
module Wrappers {

  datatype Option<+T> = None | Some(value: T)

  /** Go's `(value, error)` pair: a value, or the error the callee returned. */
  datatype Result<+T> = Ok(value: T) | Err(error: string)
}
