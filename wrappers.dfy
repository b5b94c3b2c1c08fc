/** The two failure-carrying shapes the evaluator is built from. */
module Wrappers {
  /** What Rust's `Option` is: a value or nothing. */
  datatype Option<+T> = None | Some(value: T)

  /** What Rust's `Result` is: a value or an error. */
  datatype Result<+T, +E> = Ok(value: T) | Err(error: E)
}
