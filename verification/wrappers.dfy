/** Failure-carrying wrappers shared by the other modules. */
module Wrappers {

  /** A value that may be missing (`undefined` in the controller). */
  datatype Option<T> = None | Some(value: T)

  /** Either a value or the error that took its place (a thrown `Error`
      or an early `return` after an error notice in the controller). */
  datatype Result<T, E> = Ok(value: T) | Err(error: E)
}
