/** `handleDeleteLink` of src/handlers/deleteLink.ts: DELETE /api/links/:shortcode. */
module DeleteLink {
  import opened Wrappers
  import opened Json
  import opened Links
  import opened Responses

  const NO_CODE := "Missing shortcode in path."
  const DELETE_FAILED := "Internal server error during link deletion."

  /**
   * Deletes the row under exactly the path's code (neither trimmed nor
   * lower-cased): 200 when a row went, 404 when none matched, and only
   * that row is removed. Removing rows keeps the table `Sound` for any
   * URL predicate `urlOk`.
   */
  method HandleDeleteLink(store: LinkTable, param: Option<string>, fault: bool, ghost urlOk: string -> bool)
    returns (resp: Response)
    requires store.Valid()
    modifies store
    ensures store.Valid()
    ensures resp.status != OK ==> store.links == old(store.links)
    ensures !Truthy(param) ==> resp == ErrorResponse(NO_CODE, BAD_REQUEST)
    ensures Truthy(param) ==>
      var code := param.value;
      if fault then resp == ErrorResponse(DELETE_FAILED, SERVER_ERROR)
      else if code !in old(store.links) then resp == ErrorResponse("Link with shortcode '" + code + "' not found.", NOT_FOUND)
      else
        && resp == Response(OK, Message("Link with shortcode '" + code + "' deleted successfully."))
        && store.links == old(store.links) - {code}
    ensures resp.status == OK ==> param.value !in store.links && store.links.Keys == old(store.links).Keys - {param.value}
    ensures forall k :: k in store.links ==> k in old(store.links) && store.links[k] == old(store.links)[k]
    ensures Sound(old(store.links), urlOk) ==> Sound(store.links, urlOk)
  {
    if !Truthy(param) {
      return ErrorResponse(NO_CODE, BAD_REQUEST);
    }
    var code := param.value;
    var written := store.Delete(code, fault);
    match written
    case WriteFailed =>
      resp := ErrorResponse(DELETE_FAILED, SERVER_ERROR);
    case Written(rows) =>
      if rows == 0 {
        resp := ErrorResponse("Link with shortcode '" + code + "' not found.", NOT_FOUND);
      } else {
        resp := Response(OK, Message("Link with shortcode '" + code + "' deleted successfully."));
      }
  }
}
