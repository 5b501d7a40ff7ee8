/** Failure-carrying results shared by the modules of this model. */
module Wrappers {

  /** A value that may be missing: a load that failed, a key that is absent. */
  datatype Option<+T> = None | Some(value: T)

  /** The result of an operation that either produces a value or raises an error. */
  datatype Result<+T, +E> = Ok(value: T) | Err(error: E)
}
