/** Option and Result, the two failure-carrying shapes the resolver uses. */
module Wrappers {

  datatype Option<+T> = None | Some(value: T)

  /** The Rust `Result`: `Ok` carries a value, `Err` an error. */
  datatype Result<+T, +E> = Ok(value: T) | Err(error: E)
}
