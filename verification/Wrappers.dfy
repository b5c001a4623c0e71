// Outcomes shared by every component of the model.
module Wrappers {

  datatype Option<+T> = None | Some(value: T)

  /** The source raises an exception where the model returns `Failure`. */
  datatype Result<+T, +E> = Success(value: T) | Failure(error: E)
}
