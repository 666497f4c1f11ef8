/**
 * BaseController: the success envelopes the controllers return and the
 * error helpers. A JavaScript default parameter is an `Option`: `None` is an
 * argument left out.
 */
module BaseController {
  import opened Wrappers
  import opened Domain

  const FOUND_DEFAULT := "Found Successfully"
  const CREATED_DEFAULT := "Created Successfully"
  const UPDATED_DEFAULT := "Updated Successfully"
  const DELETED_DEFAULT := "Deleted Successfully"

  /** findSuccess: 200, the data and the meta block as given. */
  function FindSuccess<T>(data: T, message: Option<string>, meta: Option<Meta>): (r: SuccessResponse<T>)
    ensures r.statusCode == OK && r.data == Some(data) && r.meta == meta
    ensures r.message == (if message.Some? then message.value else FOUND_DEFAULT)
  {
    SuccessResponse(Some(data), message.GetOr(FOUND_DEFAULT), OK, meta)
  }

  /** createSuccess: 201 and no data, whatever the handler created. */
  function CreateSuccess<T>(message: Option<string>): (r: SuccessResponse<T>)
    ensures r.statusCode == CREATED && r.data.None? && r.meta.None?
    ensures r.message == (if message.Some? then message.value else CREATED_DEFAULT)
  {
    SuccessResponse(None, message.GetOr(CREATED_DEFAULT), CREATED, None)
  }

  /** updateSuccess: 200 with the data, no meta block. */
  function UpdateSuccess<T>(data: T, message: Option<string>): (r: SuccessResponse<T>)
    ensures r.statusCode == OK && r.data == Some(data) && r.meta.None?
    ensures r.message == (if message.Some? then message.value else UPDATED_DEFAULT)
  {
    SuccessResponse(Some(data), message.GetOr(UPDATED_DEFAULT), OK, None)
  }

  /** deleteSuccess: 204 and no data. */
  function DeleteSuccess<T>(message: Option<string>): (r: SuccessResponse<T>)
    ensures r.statusCode == NO_CONTENT && r.data.None? && r.meta.None?
    ensures r.message == (if message.Some? then message.value else DELETED_DEFAULT)
  {
    SuccessResponse(None, message.GetOr(DELETED_DEFAULT), NO_CONTENT, None)
  }

  /** throwError: an HttpException whose status is the body's statusCode (the `data` of the body is not modelled). */
  function ThrowError(message: string, statusCode: int): (e: Error)
    ensures e.HttpError? && StatusOf(e) == statusCode && e.message == message
  {
    HttpError(statusCode, message)
  }

  /** notFound: an HTTP exception with status NOT_FOUND and the given message, "Not Found" without one. */
  function RaiseNotFound(message: Option<string>): (e: Error)
    ensures e.HttpError? && StatusOf(e) == NOT_FOUND
    ensures e.message == (if message.Some? then message.value else "Not Found")
  {
    ThrowError(message.GetOr("Not Found"), NOT_FOUND)
  }

  /** internalServerError: an HTTP exception with status INTERNAL_SERVER_ERROR and the given message, "Internal Server Error" without one. */
  function RaiseInternalServerError(message: Option<string>): (e: Error)
    ensures e.HttpError? && StatusOf(e) == INTERNAL_SERVER_ERROR
    ensures e.message == (if message.Some? then message.value else "Internal Server Error")
  {
    ThrowError(message.GetOr("Internal Server Error"), INTERNAL_SERVER_ERROR)
  }

  /** badRequest: an HTTP exception with status BAD_REQUEST and the given message, "Bad Request" without one. */
  function RaiseBadRequest(message: Option<string>): (e: Error)
    ensures e.HttpError? && StatusOf(e) == BAD_REQUEST
    ensures e.message == (if message.Some? then message.value else "Bad Request")
  {
    ThrowError(message.GetOr("Bad Request"), BAD_REQUEST)
  }

  /** unauthorized: an HTTP exception with status UNAUTHORIZED and the given message, "Unauthorized" without one. */
  function RaiseUnauthorized(message: Option<string>): (e: Error)
    ensures e.HttpError? && StatusOf(e) == UNAUTHORIZED
    ensures e.message == (if message.Some? then message.value else "Unauthorized")
  {
    ThrowError(message.GetOr("Unauthorized"), UNAUTHORIZED)
  }

  /** forbidden: an HTTP exception with status FORBIDDEN and the given message, "Forbidden" without one. */
  function RaiseForbidden(message: Option<string>): (e: Error)
    ensures e.HttpError? && StatusOf(e) == FORBIDDEN
    ensures e.message == (if message.Some? then message.value else "Forbidden")
  {
    ThrowError(message.GetOr("Forbidden"), FORBIDDEN)
  }

  /** Each helper answers the status of the exception it is named after, with the same message as Nest's own exception. */
  lemma HelpersMatchNestExceptions(message: string)
    ensures RaiseNotFound(Some(message)) == NotFound(message)
    ensures RaiseBadRequest(Some(message)) == BadRequest(message)
    ensures RaiseUnauthorized(Some(message)) == Unauthorized(message)
    ensures RaiseForbidden(Some(message)) == Forbidden(message)
    ensures StatusOf(RaiseInternalServerError(Some(message))) == INTERNAL_SERVER_ERROR
  {
  }
}
