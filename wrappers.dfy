/** Option and Result, the two failure shapes used throughout the model. */
module Wrappers {

  datatype Option<+T> = None | Some(value: T)

  /** A value or the error the source would have raised instead. */
  datatype Result<+T, +E> = Ok(value: T) | Err(error: E)
}
