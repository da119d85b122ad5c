/**
 * What the request handler can catch: an `ApiError` carrying a status code and a JSON body,
 * or any other exception (a TypeError raised by reading a property of `null`, for instance).
 */
module ApiErrors {

  /** One entry of a 422 body: `{ field, message }`. */
  datatype FieldError = FieldError(field: string, message: string)

  /** The `data` of an `ApiError`: `{ errors: [...] }` or `{ message }`. */
  datatype ErrorData = Errors(errors: seq<FieldError>) | Message(message: string)

  datatype Failure =
    | ApiError(statusCode: nat, data: ErrorData)
    | Unexpected
}
