/** Option and Result values used for the error returns of the modelled Go code. */
module Results {

  datatype Option<T> = None | Some(value: T)

  /** A Go `(T, error)` pair: either a value or an error. */
  datatype Result<T, E> = Ok(value: T) | Err(error: E)

  /** A Go function that returns only an `error`. */
  datatype Status<E> = Pass | Fail(error: E)
}
