/** Option and Result, the two failure-carrying datatypes the model uses in place
    of JavaScript's `null`/`undefined` and of a thrown exception. */
module Wrappers {

  datatype Option<+T> = None | Some(value: T)

  datatype Result<+R, +E> = Ok(value: R) | Err(error: E)
}
