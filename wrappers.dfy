/** Option and Result, as used by every other module of the model. */
module Wrappers {

  datatype Option<+T> = None | Some(value: T)

  /** A value, or the error message a handler answers with. */
  datatype Result<+T> = Ok(value: T) | Err(message: string)
}
