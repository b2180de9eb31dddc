/** Option and Result, the shapes of Rust's own types and of JavaScript's "absent". */
module Wrappers {
  datatype Option<+T> = None | Some(value: T)

  datatype Result<+T, +E> = Ok(value: T) | Err(error: E)
}
