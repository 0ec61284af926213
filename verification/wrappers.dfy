/** Failure-carrying values shared by the rest of the model. */
module Wrappers {

  /** A value that may be missing, like Rust's `Option`. */
  datatype Option<+T> = None | Some(value: T)

  /** A computed value or the error that prevented it, like Rust's `Result`. */
  datatype Result<+T, +E> = Success(value: T) | Failure(error: E)

  /** Success without a value, or an error: Rust's `Result<()>`. */
  datatype Outcome<+E> = Pass | Fail(error: E)
}
