/** The error classes of the HTTP layer (apps/backend/src/core/http/errors.ts)
    and the global error handler that turns whatever a route throws into a
    response (apps/backend/src/index.ts). */
module Errors {
  /** An error that carries its own status, message and machine code. */
  datatype HttpError = HttpError(statusCode: int, message: string, code: string)

  const NotAuthenticated: string := "Nao autenticado"
  const NoPermission: string := "Sem permissao"

  /** `new UnauthorizedError(message)`. */
  function Unauthorized(message: string): (e: HttpError)
    ensures e.statusCode == 401 && e.code == "UNAUTHORIZED" && e.message == message
  {
    HttpError(401, message, "UNAUTHORIZED")
  }

  /** `new ForbiddenError(message)`. */
  function Forbidden(message: string): (e: HttpError)
    ensures e.statusCode == 403 && e.code == "FORBIDDEN" && e.message == message
  {
    HttpError(403, message, "FORBIDDEN")
  }

  function Validation(message: string): HttpError {
    HttpError(400, message, "VALIDATION_ERROR")
  }

  function NotFound(message: string): HttpError {
    HttpError(404, message, "NOT_FOUND")
  }

  /** Anything a route can throw: an `HttpError`, or any other exception
      (a `TypeError`, a `RangeError` from `timingSafeEqual`, a failed
      decryption), described by `detail`. */
  datatype Failure = Http(err: HttpError) | Internal(detail: string)

  datatype ErrorBody = ErrorBody(code: string, message: string)
  datatype ErrorResponse = ErrorResponse(status: int, body: ErrorBody)

  const InternalResponse: ErrorResponse :=
    ErrorResponse(500, ErrorBody("INTERNAL_SERVER_ERROR", "Erro interno"))

  /** The error handler: an `HttpError` answers with its own status, code
      and message; anything else with a fixed 500. */
  function Respond(f: Failure): (r: ErrorResponse)
    ensures f.Http? ==> r.status == f.err.statusCode
    ensures f.Http? ==> r.body.code == f.err.code && r.body.message == f.err.message
    ensures f.Internal? ==> r == InternalResponse
  {
    match f
    case Http(e) => ErrorResponse(e.statusCode, ErrorBody(e.code, e.message))
    case Internal(_) => InternalResponse
  }

  /** The response to an `HttpError` determines the error: nothing it
      carries is lost or altered. */
  lemma RespondKeepsHttpError(e1: HttpError, e2: HttpError)
    requires Respond(Http(e1)) == Respond(Http(e2))
    ensures e1 == e2
  {
  }

  /** Internal failures are indistinguishable from the outside: the
      response reveals nothing of the exception. */
  lemma RespondHidesInternalDetail(d1: string, d2: string)
    ensures Respond(Internal(d1)) == Respond(Internal(d2))
    ensures Respond(Internal(d1)).status == 500
  {
  }

  /** The two authorisation errors answer 401 and 403, with their default
      messages when none is given. */
  lemma AuthErrorResponses()
    ensures Respond(Http(Unauthorized(NotAuthenticated)))
         == ErrorResponse(401, ErrorBody("UNAUTHORIZED", "Nao autenticado"))
    ensures Respond(Http(Forbidden(NoPermission)))
         == ErrorResponse(403, ErrorBody("FORBIDDEN", "Sem permissao"))
  {
  }
}
