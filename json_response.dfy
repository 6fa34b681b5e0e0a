/** The success envelope `{"jsonrpc": "2.0", "result", "id"}`. */
module JsonResponse {
  import opened JsonValue
  import JsonRpc

  /**
   * `obelisk_json_response`: a fresh object holding the result and the caller's id,
   * both as given. A missing id is refused by the library's object setter, so the
   * object then has no `id` member.
   */
  function Response(result: Json, id: Option<Json>): (j: Json)
    ensures j.Obj?
    ensures j.members.Keys == {"jsonrpc", "result"} + (if id.Some? then {"id"} else {})
    ensures "error" !in j.members
    ensures j.members["jsonrpc"] == Str(JsonRpc.Version)
    ensures j.members["result"] == result
    ensures id.Some? ==> j.members["id"] == id.value
  {
    var response := SetMember(map[], "jsonrpc", Some(Str(JsonRpc.Version)));
    var response := SetMember(response, "result", Some(result));
    var response := SetMember(response, "id", id);
    Obj(response)
  }

  /** The envelope is a JSON-RPC 2.0 success response exactly when an id was given. */
  lemma ResponseConforms(result: Json, id: Option<Json>)
    ensures JsonRpc.IsSuccessResponse(Response(result, id)) <==> id.Some?
  {
  }
}
