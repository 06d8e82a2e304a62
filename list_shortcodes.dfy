/** `handleListShortcodes` of src/handlers/listShortcodes.ts: GET /api/shortcodes. */
module ListShortcodes {
  import opened Wrappers
  import opened Links
  import opened Responses

  const LIST_FAILED := "Internal server error during shortcode listing."

  /** `results ? results.map((row) => row.short_code) : []`: the code column, row by row. */
  function ProjectCodes(results: Option<seq<CodeRow>>): (codes: seq<string>)
    ensures results.None? ==> codes == []
    ensures results.Some? ==> |codes| == |results.value|
    ensures results.Some? ==> forall i :: 0 <= i < |codes| ==> codes[i] == results.value[i].short_code
  {
    if results.None? then []
    else seq(|results.value|, i requires 0 <= i < |results.value| => results.value[i].short_code)
  }

  /**
   * Reads the code column and answers it as a plain array: every stored
   * code exactly once and nothing else, or 500 on a store error. The table
   * is not modified.
   */
  method HandleListShortcodes(store: LinkTable, fault: bool) returns (resp: Response)
    requires store.Valid()
    ensures fault ==> resp == ErrorResponse(LIST_FAILED, SERVER_ERROR)
    ensures !fault ==> resp.status == OK && resp.payload.Codes?
    ensures !fault ==> |resp.payload.codes| == |store.links|
    ensures !fault ==> forall k :: k in store.links <==> k in resp.payload.codes
    ensures !fault ==> forall i, j :: 0 <= i < j < |resp.payload.codes| ==> resp.payload.codes[i] != resp.payload.codes[j]
  {
    var results := store.SelectCodes(fault);
    if results.ReadFailed? {
      return ErrorResponse(LIST_FAILED, SERVER_ERROR);
    }
    var codes := ProjectCodes(Some(results.value));
    forall k | k in store.links ensures k in codes {
      var i :| 0 <= i < |results.value| && results.value[i] == CodeRow(k);
      assert codes[i] == k;
    }
    resp := Response(OK, Codes(codes));
  }
}
