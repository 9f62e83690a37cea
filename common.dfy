/** Failure-carrying wrappers shared by the backend and the dashboard client. */
module Common {

  datatype Option<+T> = None | Some(value: T)

  datatype Result<+T, +E> = Ok(value: T) | Err(error: E)

  /** An HTTPException raised by a FastAPI handler: status code and detail text. */
  datatype HttpError = HttpError(status: int, detail: string)
}
