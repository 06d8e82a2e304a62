/** `handleGetLink` of src/handlers/getLink.ts: GET /api/links/:shortcode. */
module GetLink {
  import opened Wrappers
  import opened Json
  import opened Text
  import ShortCode
  import opened Links
  import opened Responses
  import CreateLink

  const NO_CODE := "Missing shortcode in path."
  const GET_FAILED := "Internal server error during link retrieval."

  /**
   * A read-only lookup under the trimmed, lower-cased path code, which is
   * the code's normal form in the sense of `normalizeShortCode`: 400 when
   * there is none, 404 when no row is stored under it, otherwise 200 with
   * that row.
   */
  function HandleGetLink(store: LinkTable, param: Option<string>, fault: bool): (resp: Response)
    reads store
    requires store.Valid()
    ensures resp.status == BAD_REQUEST <==> ShortCode.Normalize(param).None?
    ensures resp.status == BAD_REQUEST ==> resp == ErrorResponse(NO_CODE, BAD_REQUEST)
    ensures resp.status == SERVER_ERROR <==> ShortCode.Normalize(param).Some? && fault
    ensures resp.status == SERVER_ERROR ==> resp == ErrorResponse(GET_FAILED, SERVER_ERROR)
    ensures resp.status == NOT_FOUND <==>
      ShortCode.Normalize(param).Some? && !fault && ShortCode.Normalize(param).value !in store.links
    ensures resp.status == OK <==>
      ShortCode.Normalize(param).Some? && !fault && ShortCode.Normalize(param).value in store.links
    ensures resp.status == OK ==> resp.payload == Row(store.links[ShortCode.Normalize(param).value])
    ensures resp.status == NOT_FOUND ==>
      resp.payload == Error("Link with shortcode '" + Trim(param.value) + "' not found.")
  {
    if !Truthy(param) then
      assert ShortCode.Normalize(param).None? by {
        if param.Some? { assert Trim(param.value) == []; }
      }
      ErrorResponse(NO_CODE, BAD_REQUEST)
    else
      var trimmed := Trim(param.value);
      if trimmed == [] then ErrorResponse(NO_CODE, BAD_REQUEST)
      else
        var normalized := ToLower(trimmed);
        assert ShortCode.Normalize(param) == Some(normalized);
        match store.Select(normalized, fault)
        case ReadFailed => ErrorResponse(GET_FAILED, SERVER_ERROR)
        case Rows(row) =>
          if row.None? then ErrorResponse("Link with shortcode '" + trimmed + "' not found.", NOT_FOUND)
          else Response(OK, Row(row.value))
  }

  /**
   * Path codes with the same normal form, such as " AbC " and "abc", get
   * the same status, and the same row when one is found.
   */
  lemma SameNormalFormSameAnswer(store: LinkTable, p1: Option<string>, p2: Option<string>, fault: bool)
    requires store.Valid()
    requires ShortCode.Normalize(p1) == ShortCode.Normalize(p2)
    ensures HandleGetLink(store, p1, fault).status == HandleGetLink(store, p2, fault).status
    ensures HandleGetLink(store, p1, fault).status != NOT_FOUND ==>
      HandleGetLink(store, p1, fault) == HandleGetLink(store, p2, fault)
  {
    var n := ShortCode.Normalize(p1);
    var r1 := HandleGetLink(store, p1, fault);
    var r2 := HandleGetLink(store, p2, fault);
    if n.None? {
      assert r1.status == r2.status == BAD_REQUEST;
    } else if fault {
      assert r1.status == r2.status == SERVER_ERROR;
    } else if n.value in store.links {
      assert r1.status == r2.status == OK;
    } else {
      assert r1.status == r2.status == NOT_FOUND;
    }
  }

  /**
   * A row stored under a code with an upper-case letter, which a batch
   * create can store, is never returned: the lookup key is always lower-case.
   */
  lemma MixedCaseUnreachable(store: LinkTable, key: string, param: Option<string>, fault: bool)
    requires store.Valid()
    requires key in store.links && !NoUpper(key)
    ensures HandleGetLink(store, param, fault).payload != Row(store.links[key])
  {
    if ShortCode.Normalize(param).Some? {
      ShortCode.NormalFormShape(param);
    }
  }

  /**
   * A link created with some code is then found by that code, or by any
   * code with the same normal form: enabled, with its URL, and not yet visited.
   */
  lemma CreatedThenFound(store: LinkTable, param: Option<string>, url: string, description: Option<string>,
                         now: Timestamp)
    requires store.Valid()
    requires ShortCode.Normalize(param).Some?
    requires var key := ShortCode.Normalize(param).value;
      key in store.links && store.links[key] == NewRow(key, url, description, 1, now)
    ensures var resp := HandleGetLink(store, param, false);
      && resp.status == OK
      && resp.payload.link.original_url == url
      && resp.payload.link.is_enabled == 1
      && resp.payload.link.visit_count == 0
  {
  }

  /**
   * A client creates a link and then reads it back by the code it sent.
   * A 201 means the read answers 200 with exactly the row just stored
   * under the reported code: enabled, with the request's URL and
   * description, created now and not yet visited. A 409 means a row was
   * already stored under that code, and the read finds it.
   */
  method CreateThenGet(store: LinkTable, req: CreateLink.CreateRequest, origin: string, now: Timestamp,
                       createFault: bool, urlOk: string -> bool) returns (created: Response, fetched: Response)
    requires store.Valid()
    modifies store
    ensures created.status == CREATED ==>
      && created.payload.Created?
      && Truthy(req.url)
      && fetched.status == OK
      && fetched.payload
         == Row(NewRow(created.payload.short_code, req.url.value, req.description, 1, now))
    ensures created.status == CONFLICT ==> fetched.status == OK
  {
    created := CreateLink.HandleCreateLink(store, Json(req), origin, now, createFault, urlOk);
    fetched := HandleGetLink(store, req.short_code, false);
  }
}
