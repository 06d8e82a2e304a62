/** `handleRedirect` of src/handlers/redirect.ts: GET /:shortcode. */
module Redirect {
  import opened Wrappers
  import opened Json
  import opened Text
  import ShortCode
  import opened Links
  import opened Responses

  const BAD_FORMAT := "Invalid short_code format"
  const NOT_FOUND_OR_DISABLED := "Short_code not found or disabled."
  const REDIRECT_FAILED := "Internal server error during redirect lookup"

  /** The format guard: the code is given, non-empty and has no slash. It is neither trimmed nor lower-cased. */
  predicate WellFormed(param: Option<string>) {
    Truthy(param) && '/' !in param.value
  }

  /**
   * Every code `isValidShortCode` accepts passes the redirect guard: the
   * characters `trim` cuts off are whitespace and those it keeps match the
   * pattern, so none is a slash.
   */
  lemma ValidCodePassesGuard(param: Option<string>)
    requires ShortCode.IsValid(param)
    ensures WellFormed(param)
  {
    var s := param.value;
    var r := Trim(s);
    TrimContent(s);
    var a :| FramedByWhitespace(s, a, r);
    ShortCode.PatternExcludes(r);
    assert !IsWhitespace('/');
    forall i | 0 <= i < |s| ensures s[i] != '/' {
      if a <= i < a + |r| {
        assert s[i] == r[i - a];
      } else {
        assert IsWhitespace(s[i]);
      }
    }
  }

  /** The guard is weaker than `isValidShortCode`: "a b" passes it but is not a valid code. */
  lemma GuardAdmitsInvalidCode()
    ensures WellFormed(Some("a b")) && !ShortCode.IsValid(Some("a b"))
  {
    var s := "a b";
    assert s[0] == 'a' && s[1] == ' ' && s[2] == 'b' && |s| == 3;
    assert Unpadded(s);
    TrimOfTrimmed(s);
    assert !ShortCode.PatternChar(s[1]);
    assert forall i :: 0 <= i < |s| ==> s[i] != '/';
  }

  /**
   * Resolves the code. A hit is an enabled row: one more visit is recorded
   * on that row and nowhere else, then the answer is 302 to the row's URL,
   * or 500 when `Response.redirect` rejects that URL. An absent or disabled
   * row answers 404 and a store error 500, both with the table unchanged.
   * `urlOk` stands for "the URL parser accepts the string", as in the
   * handlers that store URLs; on a sound table the rejecting path is
   * unreachable.
   */
  method HandleRedirect(store: LinkTable, param: Option<string>, now: Timestamp, lookupFault: bool,
                        updateFault: bool, urlOk: string -> bool) returns (resp: Response)
    requires store.Valid()
    modifies store
    ensures store.Valid()
    ensures !WellFormed(param) ==> resp == ErrorResponse(BAD_FORMAT, BAD_REQUEST) && store.links == old(store.links)
    ensures WellFormed(param) && lookupFault ==>
      resp == ErrorResponse(REDIRECT_FAILED, SERVER_ERROR) && store.links == old(store.links)
    ensures WellFormed(param) && !lookupFault ==>
      var code := param.value;
      if code !in old(store.links) || old(store.links)[code].is_enabled != 1 then
        resp == ErrorResponse(NOT_FOUND_OR_DISABLED, NOT_FOUND) && store.links == old(store.links)
      else if updateFault then
        resp == ErrorResponse(REDIRECT_FAILED, SERVER_ERROR) && store.links == old(store.links)
      else
        var url := old(store.links)[code].original_url;
        && store.links == old(store.links)[code := Visit(old(store.links)[code], now)]
        && resp == (if urlOk(url) then Response(FOUND, Redirect(url)) else ErrorResponse(REDIRECT_FAILED, SERVER_ERROR))
    ensures resp.status == FOUND ==> urlOk(resp.payload.location)
    ensures Sound(old(store.links), urlOk) ==> Sound(store.links, urlOk)
    ensures Sound(old(store.links), urlOk) && resp.status == SERVER_ERROR ==> lookupFault || updateFault
  {
    if !WellFormed(param) {
      return ErrorResponse(BAD_FORMAT, BAD_REQUEST);
    }
    var code := param.value;
    var found := store.Select(code, lookupFault);
    if found.ReadFailed? {
      return ErrorResponse(REDIRECT_FAILED, SERVER_ERROR);
    }
    if found.value.None? || found.value.value.is_enabled != 1 {
      return ErrorResponse(NOT_FOUND_OR_DISABLED, NOT_FOUND);
    }
    var link := found.value.value;
    var written := store.IncrementVisit(code, now, updateFault);
    if written.WriteFailed? {
      return ErrorResponse(REDIRECT_FAILED, SERVER_ERROR);
    }
    if !urlOk(link.original_url) {
      return ErrorResponse(REDIRECT_FAILED, SERVER_ERROR);
    }
    resp := Response(FOUND, Redirect(link.original_url));
  }
}
