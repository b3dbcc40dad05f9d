/** Option and Result, the two failure shapes the server code returns. */
module Wrappers {

  datatype Option<+T> = None | Some(value: T)

  datatype Result<+R, +E> = Ok(value: R) | Err(error: E)

  /** The unit value `()` of a `Result<(), E>`. */
  datatype Unit = Unit
}
