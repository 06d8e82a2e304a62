/** `handleCreateLink` of src/handlers/createLink.ts: POST /api/links with one object. */
module CreateLink {
  import opened Wrappers
  import opened Json
  import opened Text
  import ShortCode
  import opened Links
  import opened Responses

  /**
   * The destructured body. `None` is a property that is missing or `null`;
   * for `description` both are stored as NULL, so one case covers them.
   */
  datatype CreateRequest = CreateRequest(short_code: Option<string>, url: Option<string>, description: Option<string>)

  /** What a request that passed every guard inserts. */
  datatype NewLink = NewLink(key: string, url: string, description: Option<string>)

  const MISSING_FIELDS := "Missing required fields: short_code and url are required."
  const EMPTY_CODE := "short_code cannot be empty."
  const SLASH_IN_CODE := "short_code cannot contain slashes"
  const BAD_CODE_FORMAT := "Invalid short_code format. Only alphanumeric characters, hyphens, and underscores are allowed."
  const BAD_URL := "Invalid URL format."
  const CREATE_FAILED := "Internal server error during link creation."

  /**
   * The validation chain, run before any write. A request passes exactly
   * when both fields are given, the code is valid in the sense of
   * `isValidShortCode`, and the URL parses; the key it inserts under is the
   * code's normal form in the sense of `normalizeShortCode`.
   */
  function CheckCreate(req: CreateRequest, urlOk: string -> bool): (r: Result<NewLink, string>)
    ensures r.Ok? <==> Truthy(req.url) && ShortCode.IsValid(req.short_code) && urlOk(req.url.value)
    ensures r.Ok? ==> Some(r.value.key) == ShortCode.Normalize(req.short_code)
    ensures r.Ok? ==> ShortCode.MatchesPattern(r.value.key) && NoUpper(r.value.key)
    ensures r.Ok? ==> r.value.url == req.url.value && r.value.description == req.description
    ensures !Truthy(req.short_code) || !Truthy(req.url) ==> r == Err(MISSING_FIELDS)
    ensures Truthy(req.short_code) && Truthy(req.url) ==>
      var trimmed := Trim(req.short_code.value);
      && (trimmed == [] ==> r == Err(EMPTY_CODE))
      && (trimmed != [] && '/' in trimmed ==> r == Err(SLASH_IN_CODE))
      && (trimmed != [] && '/' !in trimmed && !ShortCode.MatchesPattern(trimmed) ==> r == Err(BAD_CODE_FORMAT))
      && (ShortCode.MatchesPattern(trimmed) && '/' !in trimmed && !urlOk(req.url.value) ==> r == Err(BAD_URL))
  {
    if !Truthy(req.short_code) || !Truthy(req.url) then Err(MISSING_FIELDS)
    else
      var trimmed := Trim(req.short_code.value);
      var normalized := ToLower(trimmed);
      if trimmed == [] then Err(EMPTY_CODE)
      else if '/' in trimmed then Err(SLASH_IN_CODE)
      else if !ShortCode.MatchesPattern(trimmed) then Err(BAD_CODE_FORMAT)
      else if !urlOk(req.url.value) then Err(BAD_URL)
      else
        ShortCode.ValidNormalizes(req.short_code);
        LowerHasNoUpper(trimmed);
        Ok(NewLink(normalized, req.url.value, req.description))
  }

  /** The absolute short URL: the request's origin, a slash, and the key. */
  function ShortUrl(origin: string, key: string): (r: string)
    ensures StartsWith(r, origin + "/") && r[|origin| + 1..] == key
  {
    origin + "/" + key
  }

  /**
   * Validates, then inserts the link enabled. A duplicate key answers 409
   * and any other store error 500, both leaving the table as it was.
   */
  method HandleCreateLink(store: LinkTable, body: Body<CreateRequest>, origin: string, now: Timestamp,
                          fault: bool, urlOk: string -> bool) returns (resp: Response)
    requires store.Valid()
    modifies store
    ensures store.Valid()
    ensures resp.status != CREATED ==> store.links == old(store.links)
    ensures body.InvalidJson? ==> resp == ErrorResponse("Invalid JSON body", BAD_REQUEST)
    ensures body.Json? && CheckCreate(body.value, urlOk).Err? ==>
      resp == ErrorResponse(CheckCreate(body.value, urlOk).error, BAD_REQUEST)
    ensures body.Json? && CheckCreate(body.value, urlOk).Ok? ==>
      var n := CheckCreate(body.value, urlOk).value;
      if fault then resp == ErrorResponse(CREATE_FAILED, SERVER_ERROR)
      else if n.key in old(store.links) then
        resp == ErrorResponse("Short_code '" + n.key + "' already exists.", CONFLICT)
      else
        && resp == Response(CREATED, Created("Link created successfully", n.key, ShortUrl(origin, n.key), n.url))
        && store.links == old(store.links)[n.key := NewRow(n.key, n.url, n.description, 1, now)]
    ensures Sound(old(store.links), urlOk) ==> Sound(store.links, urlOk)
  {
    if body.InvalidJson? {
      return ErrorResponse("Invalid JSON body", BAD_REQUEST);
    }
    var checked := CheckCreate(body.value, urlOk);
    if checked.Err? {
      return ErrorResponse(checked.error, BAD_REQUEST);
    }
    var n := checked.value;
    ghost var before := store.links;
    var inserted := store.Insert(n.key, n.url, n.description, 1, now, fault);
    match inserted
    case Inserted =>
      if Sound(before, urlOk) {
        SoundInsert(before, n.key, NewRow(n.key, n.url, n.description, 1, now), urlOk);
      }
      resp := Response(CREATED, Created("Link created successfully", n.key, ShortUrl(origin, n.key), n.url));
    case Duplicate =>
      resp := ErrorResponse("Short_code '" + n.key + "' already exists.", CONFLICT);
    case InsertFailed =>
      resp := ErrorResponse(CREATE_FAILED, SERVER_ERROR);
  }
}
