/** Option and Result, the failure-carrying values used across the model.
    `None` also stands for JavaScript's NaN where a computation can produce it. */
module Wrappers {

  datatype Option<+T> = None | Some(value: T)

  datatype Result<+T, +E> = Ok(value: T) | Err(error: E)
}
