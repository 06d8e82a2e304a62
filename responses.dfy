/**
 * Responses as (status, payload) pairs: `jsonResponse(data, status)` and
 * `errorResponse(message, status)` of src/utils/response.ts, and
 * `Response.redirect(url, 302)`.
 */
module Responses {
  import opened Wrappers
  import opened Links

  const OK := 200
  const CREATED := 201
  const FOUND := 302
  const BAD_REQUEST := 400
  const UNAUTHORIZED := 401
  const NOT_FOUND := 404
  const CONFLICT := 409
  const SERVER_ERROR := 500

  /** An item of the `success` list of a batch create. */
  datatype SuccessEntry = SuccessEntry(short_code: string, short_url: string, original_url: string, description: Option<string>)

  /** An item of the `errors` list of a batch create. */
  datatype ErrorEntry = ErrorEntry(original_url: string, short_code: Option<string>, error: string)

  /** The JSON body of a response, or the target of a redirect. */
  datatype Payload =
    | Error(error: string)
    | Message(message: string)
    | Created(message: string, short_code: string, short_url: string, original_url: string)
    | Row(link: Link)
    | Codes(codes: seq<string>)
    | BatchReport(message: string, success: seq<SuccessEntry>, errors: seq<ErrorEntry>)
    | Redirect(location: string)

  datatype Response = Response(status: int, payload: Payload)

  /** `errorResponse(message, status)`: the body is `{ error: message }`. */
  function ErrorResponse(message: string, status: int): Response {
    Response(status, Error(message))
  }
}
