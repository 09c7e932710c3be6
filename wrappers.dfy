/** Failure-carrying values used across the model: the Rust `Option`, `Result` and
    the unit-valued `Result<()>` (here `Outcome`). */
module Wrappers {

  datatype Option<T> = None | Some(value: T)

  datatype Result<T, E> = Ok(value: T) | Err(error: E)

  /** `Result<(), E>`: either `Ok(())` (Pass) or an error. */
  datatype Outcome<E> = Pass | Fail(error: E)
}
