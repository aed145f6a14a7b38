/** Option and Result values, used for nullable fields and for the outcome of a mutation. */
module Wrappers {

  datatype Option<+T> = None | Some(value: T)

  /** Success carries the mutation's payload; Failure carries the error it reports. */
  datatype Result<+R, +E> = Success(value: R) | Failure(error: E)
}
