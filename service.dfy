/**
 * The uniform result of every service function (src/entities/Service.ts):
 * a success carries a message and the data, a failure carries an error
 * with an HTTP-like code and a message (and the empty `data: {}`, which
 * carries nothing and is therefore not represented).
 */
module Service {

  datatype ServiceError = ServiceError(code: int, message: string)

  datatype ServiceResponse<+T> =
    | Success(message: string, data: T)
    | Failure(err: ServiceError)
  {
    /** The `status` flag of the source's response. */
    predicate Status() { Success? }
  }

  /** The shared 500 response returned by every `catch`. */
  const InternalServerError: ServiceError := ServiceError(500, "Internal Server Error")

  /** Shorthand for a failed response with the given code and message. */
  function Fail<T>(code: int, message: string): ServiceResponse<T> {
    Failure(ServiceError(code, message))
  }
}
