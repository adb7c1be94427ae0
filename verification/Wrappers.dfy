// A value that may be missing, and a value or the error instead of it.
module Wrappers {

  datatype Option<+T> = None | Some(value: T)

  datatype Result<+V, +E> = Ok(value: V) | Err(error: E)
}
