/** `authenticateApiRequest` of src/middleware/auth.ts: the bearer-token gate in front of every /api route. */
module Auth {
  import opened Wrappers
  import opened Json
  import opened Text
  import opened Responses

  /** What the middleware tells the router: go on to the handler, or answer with this response. */
  datatype Gate = Continue | Reject(response: Response)

  const BEARER := "Bearer "
  const MALFORMED := "Unauthorized - Missing or malformed Authorization header."
  const INVALID_TOKEN := "Unauthorized - Invalid token."

  /**
   * `header` is the Authorization header (None when absent) and `apiToken`
   * the configured secret (None when unset). The request continues exactly
   * when the header is "Bearer " followed by the secret; every rejection is
   * a 401.
   */
  function Authenticate(header: Option<string>, apiToken: Option<string>): (g: Gate)
    ensures g.Continue? <==> apiToken.Some? && header == Some(BEARER + apiToken.value)
    ensures g.Reject? ==> g.response.status == UNAUTHORIZED
    ensures !Truthy(header) || !StartsWith(header.value, BEARER) ==> g == Reject(ErrorResponse(MALFORMED, UNAUTHORIZED))
    ensures Truthy(header) && StartsWith(header.value, BEARER) && g.Reject? ==> g == Reject(ErrorResponse(INVALID_TOKEN, UNAUTHORIZED))
  {
    if !Truthy(header) || !StartsWith(header.value, BEARER) then Reject(ErrorResponse(MALFORMED, UNAUTHORIZED))
    else
      var token := header.value[7..];
      assert header.value == BEARER + token;
      if apiToken.None? || token != apiToken.value then Reject(ErrorResponse(INVALID_TOKEN, UNAUTHORIZED))
      else Continue
  }

  /** The token compared is the header with its first seven characters, "Bearer ", removed. */
  lemma TokenIsHeaderTail(header: string, apiToken: string)
    requires StartsWith(header, BEARER)
    ensures Authenticate(Some(header), Some(apiToken)).Continue? <==> header[7..] == apiToken
  {
    assert header == BEARER + header[7..];
  }
}
