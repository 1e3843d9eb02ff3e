/** Option and Result, the two failure-carrying types the Rust code returns. */
module Wrappers {

  /** `std::option::Option`. */
  datatype Option<+T> = None | Some(value: T)

  /** `std::result::Result`; the success value of the setters is `()`. */
  datatype Result<+T, +E> = Ok(value: T) | Err(error: E)
}
