/** Failure-carrying values used where the Python code raises or returns
    nothing: an optional value and a success-or-error result. */
module Results {

  datatype Option<+T> = None | Some(value: T)

  /** `Failure` carries the name of the Python exception the code would raise. */
  datatype Result<+T> = Success(value: T) | Failure(error: string)
}
