/** Failure-carrying wrappers shared by the modules of this model. */
module Wrappers {

  /** A value that may be absent: a nullable column or a lookup that found nothing. */
  datatype Option<+T> = None | Some(value: T)

  /** The outcome of an operation that can raise: a value or the error it raised. */
  datatype Result<+R, +E> = Success(value: R) | Failure(error: E)
}
