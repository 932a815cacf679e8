/** Nullable references and throwing results shared by the chunk modules. */
module Wrappers {

  /** A nullable reference: `None` plays the part of C#'s `null`. */
  datatype Option<+T> = None | Some(value: T)

  /** The outcome of an operation that either returns a value or throws. */
  datatype Result<+T, +E> = Success(value: T) | Failure(error: E)
}
