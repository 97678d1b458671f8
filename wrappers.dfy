/** Option, result and outcome types shared by all modules of the model. */
module Wrappers {

  /** A value that may be absent; `None` stands for Java's `null`. */
  datatype Option<+T> = None | Some(value: T)

  /** A computation that either yields a value or raises an error. */
  datatype Result<+T, +E> = Ok(value: T) | Err(error: E)

  /** A computation that only succeeds or raises an error. */
  datatype Outcome<+E> = Pass | Fail(error: E)
}
