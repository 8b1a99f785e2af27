/** Result types shared by the modules below. */
module Common {

  datatype Option<+T> = None | Some(value: T)

  /** A thrown `Error` is a `Failure` carrying the error the source raises. */
  datatype Result<+T, +E> = Success(value: T) | Failure(error: E)
}
