/** Failure-compatible results shared by every module of the model. */
module Wrappers {

  /** A value that may be missing: `None` in the source. */
  datatype Option<+T> = None | Some(value: T)

  /** The value returned, or the exception raised, by a source function. */
  datatype Result<+T, +E> = Ok(value: T) | Err(error: E)
}
