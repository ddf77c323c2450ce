/** Shared vocabulary of the appointment core: optional values, handler results
    and the error a handler passes to the framework's error middleware. */
module Common {

  /** A value that may be absent (JavaScript's `undefined`). */
  datatype Option<T> = None | Some(value: T)

  /** The error a handler raises: a human-readable message and an HTTP status. */
  datatype HttpError = HttpError(status: int, message: string)

  /** What a handler ends with: a successful payload or an error. */
  datatype Result<T> = Ok(value: T) | Err(error: HttpError)

  /** Database identifiers (users and appointments), kept abstract. */
  type Id = nat
}
