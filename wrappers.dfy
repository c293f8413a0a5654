/** Option and Result, the two failure-carrying shapes the rest of the model uses. */
module Wrappers {

  datatype Option<+T> = None | Some(value: T)

  /** The outcome of an operation that can throw: a value or the error it raised. */
  datatype Result<+T> = Ok(value: T) | Err(error: string)
}
