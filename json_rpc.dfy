/**
 * Reference shapes from the JSON-RPC 2.0 specification, stated independently of
 * the dispatcher: the response object of section 5, the error object of
 * section 5.1 and its reserved code range. The envelope builders are proved
 * against these predicates.
 */
module JsonRpc {
  import opened JsonValue

  const Version: string := "2.0"

  // Section 5.1: the predefined error codes.
  const ParseErrorCode: int := -32700
  const InvalidRequestCode: int := -32600
  const MethodNotFoundCode: int := -32601
  const InvalidParamsCode: int := -32602
  const InternalErrorCode: int := -32603

  /** Section 5.1: codes from -32768 to -32000 inclusive are reserved for predefined errors. */
  predicate IsReservedCode(code: int) {
    -32768 <= code <= -32000
  }

  /** Section 5.1: -32000 to -32099 is the band reserved for implementation-defined server errors. */
  predicate IsServerErrorCode(code: int) {
    -32099 <= code <= -32000
  }

  /** Section 5.1: an error object has an integer `code`, a string `message` and an optional `data`. */
  predicate IsErrorObject(v: Json) {
    && v.Obj?
    && "code" in v.members && v.members["code"].Int?
    && "message" in v.members && v.members["message"].Str?
    && v.members.Keys <= {"code", "message", "data"}
  }

  /**
   * Section 5: a response object carries `jsonrpc` = "2.0", an `id`, and exactly one
   * of `result` and `error`; an `error` member must be an error object.
   */
  predicate IsResponseObject(v: Json) {
    && v.Obj?
    && "jsonrpc" in v.members && v.members["jsonrpc"] == Str(Version)
    && "id" in v.members
    && (("result" in v.members) != ("error" in v.members))
    && ("error" in v.members ==> IsErrorObject(v.members["error"]))
    && v.members.Keys <= {"jsonrpc", "id", "result", "error"}
  }

  predicate IsSuccessResponse(v: Json) {
    IsResponseObject(v) && "result" in v.members
  }

  predicate IsErrorResponse(v: Json) {
    IsResponseObject(v) && "error" in v.members
  }
}
