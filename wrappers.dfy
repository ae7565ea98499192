/** Failure-carrying values used by the stress model in place of C++ exceptions. */
module Wrappers {

  /** A lookup that may find nothing. */
  datatype Option<T> = None | Some(value: T)

  /** A run that either produces its output or stops with an error and produces nothing. */
  datatype Result<T, E> = Ok(value: T) | Err(error: E)
}
