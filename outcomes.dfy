/** Result shapes shared by the jobs core: an optional value, the two error
    classes the core throws, and a value-or-error result. */
module Outcomes {

  datatype Option<+T> = None | Some(value: T)

  /** The error classes thrown by the jobs core. Their HTTP status mapping is
      done elsewhere and is not part of this model. */
  datatype ExpressError =
    | BadRequest
    | NotFound(message: string)

  /** A value, or the error the JavaScript code would throw instead. */
  datatype Result<+T> = Ok(value: T) | Err(error: ExpressError)
}
