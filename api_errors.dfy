/**
 * The error values that reach the global error handler, and the response
 * envelope. `ApiError` and `ApiResponse` (src/utils/ApiError.js,
 * src/utils/ApiResponse.js) are not part of this model: only the fields the
 * handlers read are kept.
 */
module ApiErrors {
  import opened Wrappers

  datatype Error =
      /** `new ApiError(message, statusCode)`. */
    | ApiError(statusCode: int, message: string)
      /**
       * Any other thrown error: Mongoose's `ValidationError` (with the messages
       * of its sub-errors) and `CastError` (with the cast path and value), the
       * token library's errors, `TypeError`s. An absent property is `None` or "".
       */
    | Thrown(name: string, message: string, status: Option<int>,
             subMessages: seq<string>, path: string, value: string)

  /** The error JavaScript raises when a property of `undefined` or `null` is read. */
  function TypeError(message: string): Error {
    Thrown("TypeError", message, None, [], "", "")
  }

  /** `new ApiResponse(statusCode, data, message)`. */
  datatype ApiResponse<T> = ApiResponse(statusCode: int, data: Option<T>, message: string)
}
