/** Small failure-compatible datatypes shared by the modules of this project. */
module Wrappers {

  datatype Option<+A> = None | Some(value: A)

  datatype Result<+A, +E> = Ok(value: A) | Err(error: E)
}
