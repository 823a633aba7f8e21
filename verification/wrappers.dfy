/** Failure-compatible wrappers shared by the other modules. */
module Wrappers {

  /** A value that may be absent: JavaScript's `undefined`/`null`, Rust's `Option`. */
  datatype Option<+T> = None | Some(value: T)

  /** The outcome of a command that may fail with a message (Rust's `Result<T, String>`). */
  datatype Result<+T> = Ok(value: T) | Err(message: string)
}
