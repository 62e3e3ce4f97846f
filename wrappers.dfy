/** Option and Result values, and the HTTP exception kinds the services throw. */
module Wrappers {

  datatype Option<+T> = None | Some(value: T)

  /** The Nest exceptions of the core: BadRequestException, UnauthorizedException,
      ForbiddenException, and Internal for an uncaught error (a 500). */
  datatype Error = BadRequest | Unauthorized | Forbidden | Internal

  datatype Result<+T> = Ok(value: T) | Err(error: Error)

  /** The `{ success: true }` body most handlers return. */
  datatype Success = Success
}
