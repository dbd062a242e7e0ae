/** Failure-carrying wrappers shared by every module of the model. */
module Base {

  /** Python's `None` versus a present value. */
  datatype Option<+T> = None | Some(value: T)

  /** A computation that either returns a value or raises; the error
      carries what the raised exception reports. */
  datatype Result<+T, +E> = Success(value: T) | Failure(error: E)
}
