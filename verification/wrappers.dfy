/** Failure-carrying datatypes shared by the loaders and decoders. */
module Wrappers {

  /** A value that may be absent, e.g. the result of a parse that can fail. */
  datatype Option<+T> = None | Some(value: T)

  /** Either a value or the error that stopped the computation. */
  datatype Result<+R, +E> = Success(value: R) | Failure(error: E)
}
