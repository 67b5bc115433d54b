/** Option and Result, the failure-carrying return types of the engine. */
module Wrappers {

  datatype Option<+T> = None | Some(value: T)

  /** A fatal decode or contract failure carries the message the engine panics with. */
  datatype Result<+T> = Ok(value: T) | Err(message: string)
}
