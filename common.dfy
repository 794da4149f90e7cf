/** Option and Result, shared by every module of the model. */
module Wrappers {

  datatype Option<+T> = None | Some(value: T)

  datatype Result<+T, +E> = Ok(value: T) | Err(error: E)
}

/** The framework's HTTP exceptions, as the services throw them. */
module Http {

  datatype Exception =
    | NotFound(message: string)
    | Unauthorized(message: string)
    | Forbidden(message: string)
    | RequestTimeout(message: string)

  /** The message an `UnauthorizedException` carries when it is built without one. */
  const DefaultUnauthorized := "Unauthorized"
}
