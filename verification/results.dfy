/** Failure-carrying datatypes shared by the rest of the model: an optional
    value (JavaScript's `undefined`/`null` versus a value) and the outcome of an
    operation that either returns a value or throws an error. */
module Results {

  /** A value that may be absent. */
  datatype Option<+T> = None | Some(value: T)

  /** Either a returned value or a thrown error. */
  datatype Result<+R, +E> = Success(value: R) | Failure(error: E)
}
