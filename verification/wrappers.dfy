/** Option and Result, used for JavaScript's `undefined` handle fields and for
    the error a listener call can raise. */
module Wrappers {

  datatype Option<+T> = None | Some(value: T)

  datatype Result<+T, +E> = Ok(value: T) | Err(error: E)
}
