/** Option and Result, the failure-carrying values the descriptor model returns
    in place of Kotlin's nullable references and thrown exceptions. */
module Wrappers {

  /** A value that may be absent (Kotlin's `T?`). */
  datatype Option<+T> = None | Some(value: T)

  /** Either a value or the error that was thrown instead of producing it. */
  datatype Result<+T, +E> = Ok(value: T) | Err(error: E)
}
