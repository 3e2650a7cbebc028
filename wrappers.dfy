/** Optional values and results: Java's `null`/`Optional` and thrown exceptions. */
module Wrappers {

  /** A nullable Java reference or an `Optional`: `None` is `null` / `Optional.empty()`. */
  datatype Option<+T> = None | Some(value: T)

  /** A value or the message of the exception that was thrown instead. */
  datatype Result<+T> = Ok(value: T) | Err(message: string)
}
