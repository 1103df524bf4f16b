/** Option and Result, used for the values JavaScript leaves undefined and for thrown errors. */
module Wrappers {

  datatype Option<+T> = None | Some(value: T)

  /** A computation that either returns a value or throws the error `error`. */
  datatype Result<+T, +E> = Ok(value: T) | Err(error: E)
}
