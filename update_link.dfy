/** `handleUpdateLink` of src/handlers/updateLink.ts: PATCH /api/links/:shortcode. */
module UpdateLink {
  import opened Wrappers
  import opened Json
  import opened Text
  import opened Links
  import opened Responses

  /**
   * The parsed body: each property absent or present; a present `url` or
   * `description` may be `null` (`None`).
   */
  datatype UpdateRequest = UpdateRequest(url: Field<Option<string>>, is_enabled: Field<Value>, description: Field<Option<string>>)

  const NO_CODE := "Short code not provided in the URL path."
  const URL_EMPTY := "URL cannot be empty or null."
  const BAD_URL := "Invalid URL format."
  const BAD_ENABLED := "Invalid value for is_enabled. Must be 0 or 1."
  const NO_FIELDS := "No valid fields provided for update (url, is_enabled, description)."
  const UPDATE_FAILED := "Internal server error during link update."

  /** A `url` property the handler accepts: absent, or a non-blank string that parses. */
  predicate UrlAcceptable(f: Field<Option<string>>, urlOk: string -> bool) {
    f.Absent? || (f.value.Some? && Trim(f.value.value) != [] && urlOk(f.value.value))
  }

  /** An `is_enabled` property the handler accepts: absent, or exactly the number 0 or 1. */
  predicate EnabledAcceptable(f: Field<Value>) {
    f.Absent? || f.value == Number(0.0) || f.value == Number(1.0)
  }

  /**
   * The field checks and the column list. A body passes exactly when its
   * `url` and `is_enabled` are acceptable and at least one of the three
   * properties is present; the patch then names exactly the present
   * properties, with their values, and an explicit `null` description
   * clears the column.
   */
  function ValidatePatch(req: UpdateRequest, urlOk: string -> bool): (r: Result<Patch, string>)
    ensures r.Ok? <==>
      UrlAcceptable(req.url, urlOk) && EnabledAcceptable(req.is_enabled)
      && (req.url.Present? || req.is_enabled.Present? || req.description.Present?)
    ensures r.Ok? ==> (r.value.url.Present? <==> req.url.Present?)
    ensures r.Ok? && r.value.url.Present? ==>
      Some(r.value.url.value) == req.url.value && r.value.url.value != [] && urlOk(r.value.url.value)
    ensures r.Ok? ==> (r.value.is_enabled.Present? <==> req.is_enabled.Present?)
    ensures r.Ok? && r.value.is_enabled.Present? ==>
      (r.value.is_enabled.value == 0 || r.value.is_enabled.value == 1)
      && req.is_enabled.value == Number(r.value.is_enabled.value as real)
    ensures r.Ok? ==> r.value.description == req.description
    ensures req.url.Present? && (req.url.value.None? || Trim(req.url.value.value) == []) ==> r == Err(URL_EMPTY)
  {
    if req.url.Present? && (req.url.value.None? || Trim(req.url.value.value) == []) then Err(URL_EMPTY)
    else if req.url.Present? && !urlOk(req.url.value.value) then Err(BAD_URL)
    else if req.is_enabled.Present? && req.is_enabled.value != Number(0.0) && req.is_enabled.value != Number(1.0) then
      Err(BAD_ENABLED)
    else if req.url.Absent? && req.is_enabled.Absent? && req.description.Absent? then Err(NO_FIELDS)
    else
      var url := if req.url.Present? then Present(req.url.value.value) else Absent;
      var enabled := if req.is_enabled.Present? then Present(if req.is_enabled.value == Number(1.0) then 1 else 0) else Absent;
      Ok(Patch(url, enabled, req.description))
  }

  /**
   * Validates, then runs one UPDATE of the present columns of the row
   * under exactly the path's code. Only a 200 changes the table, and then
   * only that row and only the patched columns.
   */
  method HandleUpdateLink(store: LinkTable, param: Option<string>, body: Body<UpdateRequest>, fault: bool,
                          urlOk: string -> bool) returns (resp: Response)
    requires store.Valid()
    modifies store
    ensures store.Valid()
    ensures resp.status != OK ==> store.links == old(store.links)
    ensures !Truthy(param) ==> resp == ErrorResponse(NO_CODE, BAD_REQUEST)
    ensures Truthy(param) && body.InvalidJson? ==> resp == ErrorResponse("Invalid JSON body", BAD_REQUEST)
    ensures Truthy(param) && body.Json? && ValidatePatch(body.value, urlOk).Err? ==>
      resp == ErrorResponse(ValidatePatch(body.value, urlOk).error, BAD_REQUEST)
    ensures Truthy(param) && body.Json? && ValidatePatch(body.value, urlOk).Ok? ==>
      var code := param.value;
      var patch := ValidatePatch(body.value, urlOk).value;
      if fault then resp == ErrorResponse(UPDATE_FAILED, SERVER_ERROR)
      else if code !in old(store.links) then resp == ErrorResponse("Short code '" + code + "' not found.", NOT_FOUND)
      else
        && resp == Response(OK, Message("Link with short code '" + code + "' updated successfully"))
        && store.links == old(store.links)[code := ApplyPatch(old(store.links)[code], patch)]
    ensures Sound(old(store.links), urlOk) ==> Sound(store.links, urlOk)
  {
    if !Truthy(param) {
      return ErrorResponse(NO_CODE, BAD_REQUEST);
    }
    var code := param.value;
    if body.InvalidJson? {
      return ErrorResponse("Invalid JSON body", BAD_REQUEST);
    }
    var checked := ValidatePatch(body.value, urlOk);
    if checked.Err? {
      return ErrorResponse(checked.error, BAD_REQUEST);
    }
    var written := store.UpdateFields(code, checked.value, fault);
    match written
    case WriteFailed =>
      resp := ErrorResponse(UPDATE_FAILED, SERVER_ERROR);
    case Written(rows) =>
      if rows == 0 {
        resp := ErrorResponse("Short code '" + code + "' not found.", NOT_FOUND);
      } else {
        resp := Response(OK, Message("Link with short code '" + code + "' updated successfully"));
      }
  }
}
