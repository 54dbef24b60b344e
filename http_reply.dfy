/**
 * The replies the controllers send through the response helpers
 * (`response_success`, `response_created`, `response_bad_request`,
 * `response_not_found`, `response_unauthorized`). The helpers' own
 * envelope and status codes are not part of this model: a reply is
 * named by the helper that sends it.
 */
module HttpReply {
  import opened Wrappers
  import opened Service

  /** One entry of a validation failure (`generateErrorStructure(field, message)`). */
  datatype FieldError = FieldError(field: string, message: string)

  datatype Reply<+T> =
    | Successful(message: string, data: T)
    | Created(note: Option<string>, data: T)
    | BadRequest(message: string, errors: seq<FieldError>)
    | NotFound(message: string)
    | Unauthorized(message: string)

  /** `message || fallback`: an empty message is falsy and gives way to the fallback. */
  function OrElse(message: string, fallback: string): (r: string)
    ensures message != "" ==> r == message
    ensures message == "" ==> r == fallback
  {
    if message != "" then message else fallback
  }

  /** The usual mapping of a failed service call: 404 becomes not found, anything else a bad request. */
  function LookupFailure<T>(err: ServiceError, fallback: string): (r: Reply<T>)
    ensures err.code == 404 ==> r == NotFound(err.message)
    ensures err.code != 404 ==> r == BadRequest(OrElse(err.message, fallback), [])
  {
    if err.code == 404 then NotFound(err.message) else BadRequest(OrElse(err.message, fallback), [])
  }
}
