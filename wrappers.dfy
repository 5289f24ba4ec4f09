/** Failure-carrying results shared by the other modules. */
module Wrappers {

  datatype Option<+T> = None | Some(value: T)

  /** The outcome of a step that Python would abort with an exception. */
  datatype Result<+T, +E> = Ok(value: T) | Err(error: E)
}
