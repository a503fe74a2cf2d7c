/** Values shared by every layer: optional values, the service error taxonomy
    and a result type standing for "returns a value or raises". */
module Common {

  datatype Option<+T> = None | Some(value: T)

  /** The exceptions the services, validators and routers raise, each with the
      `detail` text it carries. */
  datatype Error =
    | NotFound(detail: string)        // NotFoundException, HTTP 404
    | Unauthorized(detail: string)    // UnauthorizedException, HTTP 401
    | Forbidden(detail: string)       // ForbiddenException, HTTP 403
    | BadRequest(detail: string)      // BadRequestException, HTTP 400
    | Invalid(detail: string)         // a pydantic validation failure (ValueError), HTTP 422
    | TypeFailure(detail: string)     // Python TypeError
    | IndexFailure(detail: string)    // Python IndexError
    | DatabaseFailure(detail: string) // a SQLAlchemyError, answered with HTTP 500

  datatype Result<+T> = Ok(value: T) | Err(error: Error)

  /** A stored entity together with the primary key the table gave it. */
  datatype Row<+T> = Row(id: nat, value: T)

  /** The detail of an UnauthorizedException raised without arguments: the
      security tests expect "Unauthorized" (the exception classes themselves
      are not part of this model). */
  const DefaultUnauthorizedDetail: string := "Unauthorized"

  /** The detail the database-error handler answers every SQLAlchemyError with. */
  const DatabaseErrorDetail: string := "Internal server error"
}
