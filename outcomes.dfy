/** Values that stand for the outcomes of the HTTP handlers: an optional
    value, and either a result or the HTTPException the handler raises. */
module Outcomes {

  datatype Option<+T> = None | Some(value: T)

  /** An HTTPException: its status code and its detail message. */
  datatype HttpError = HttpError(status: nat, detail: string)

  datatype Result<+T> = Ok(value: T) | Err(error: HttpError)
}
