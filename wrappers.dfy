/** Failure-carrying results shared by every module of the model. */
module Wrappers {

  datatype Option<+T> = None | Some(value: T)

  datatype Result<+T, +E> = Ok(value: T) | Err(error: E)

  /** The settled state of a JavaScript promise that carries no value: it
      resolved, or it rejected with an Error whose `message` is given. */
  datatype Outcome = Pass | Fail(message: string)
}
