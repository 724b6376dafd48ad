/** Failure-carrying datatypes shared by the whole model. */
module Wrappers {

  /** A value that may be absent; Python's `Optional[...]` / `None`. */
  datatype Option<+T> = None | Some(value: T)

  /** Either a value or the reason an operation raised. */
  datatype Result<+T, +E> = Success(value: T) | Failure(error: E)
}
