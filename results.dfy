/** Failure-carrying result types shared by the model. */
module Results {

  /** A value that may be missing; an external call that raised gives `None`. */
  datatype Option<+T> = None | Some(value: T)

  /** The outcome of an operation that either produces a value or fails with an error. */
  datatype Result<+R, +E> = Success(value: R) | Failure(error: E)
}
