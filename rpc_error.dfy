/**
 * The dispatcher's error records: the kind enumeration, the fixed kind to
 * (code, message) table, the JSON-RPC error envelope each record carries, and
 * the record's own life cycle (create, create from a formatted message, destroy).
 */
module RpcError {
  import opened JsonValue
  import JsonRpc

  // The enumerators of the error kind, numbered as the C enumeration numbers them.
  const Parse: int := 0
  const InvalidRequest: int := 1
  const MethodNotFound: int := 2
  const InvalidParams: int := 3
  const Internal: int := 4
  const Server: int := 5

  /** The code reported for a kind outside the enumeration. */
  const UndefinedCode: int := -32001

  predicate IsEnumerated(e: int) {
    Parse <= e <= Server
  }

  datatype Description = Description(code: int, message: string)

  /** The fixed table from error kind to JSON-RPC code and fixed message text. */
  function Describe(e: int): (d: Description)
    ensures IsEnumerated(e) ==> JsonRpc.IsReservedCode(d.code) && d.code != UndefinedCode
    ensures !IsEnumerated(e) ==> d == Description(UndefinedCode, "Error object not defined.")
    ensures e == Server ==> JsonRpc.IsServerErrorCode(d.code)
  {
    if e == Parse then Description(-32700, "Parse error.")
    else if e == InvalidRequest then Description(-32600, "Invalid request.")
    else if e == MethodNotFound then Description(-32601, "Method not found.")
    else if e == InvalidParams then Description(-32602, "Invalid params.")
    else if e == Internal then Description(-32603, "Internal error.")
    else if e == Server then Description(-32000, "Server error.")
    else Description(UndefinedCode, "Error object not defined.")
  }

  /** The table itself, code and text for each of the six kinds. */
  lemma KindTable()
    ensures Describe(Parse) == Description(-32700, "Parse error.")
    ensures Describe(InvalidRequest) == Description(-32600, "Invalid request.")
    ensures Describe(MethodNotFound) == Description(-32601, "Method not found.")
    ensures Describe(InvalidParams) == Description(-32602, "Invalid params.")
    ensures Describe(Internal) == Description(-32603, "Internal error.")
    ensures Describe(Server) == Description(-32000, "Server error.")
  {
  }

  /** The first five kinds report the predefined codes of section 5.1 of JSON-RPC 2.0. */
  lemma CodesFollowStandard()
    ensures Describe(Parse).code == JsonRpc.ParseErrorCode
    ensures Describe(InvalidRequest).code == JsonRpc.InvalidRequestCode
    ensures Describe(MethodNotFound).code == JsonRpc.MethodNotFoundCode
    ensures Describe(InvalidParams).code == JsonRpc.InvalidParamsCode
    ensures Describe(Internal).code == JsonRpc.InternalErrorCode
  {
  }

  /** The six codes are pairwise distinct, so a code names at most one kind. */
  lemma CodeDeterminesKind(e1: int, e2: int)
    requires IsEnumerated(e1) && IsEnumerated(e2)
    requires Describe(e1).code == Describe(e2).code
    ensures e1 == e2
  {
  }

  /** The id an envelope reports: the error's id, or JSON null when there is none. */
  function IdOrNull(id: Option<Json>): (v: Json)
    ensures id.Some? ==> v == id.value
    ensures id.None? ==> v == Null
  {
    if id.Some? then id.value else Null
  }

  /**
   * The envelope `{"id", "jsonrpc": "2.0", "error": {"code", "message", "data"}}` of an
   * error of kind `e` with id `id` and message text `msg`.
   */
  function ErrorEnvelope(e: int, id: Option<Json>, msg: string): (j: Json)
    ensures JsonRpc.IsErrorResponse(j)
    ensures j.members.Keys == {"id", "jsonrpc", "error"}
    ensures j.members["id"] == IdOrNull(id)
    ensures j.members["error"].Obj? && j.members["error"].members.Keys == {"code", "message", "data"}
    ensures j.members["error"].members["code"] == Int(Describe(e).code)
    ensures j.members["error"].members["message"] == Str(Describe(e).message)
    ensures j.members["error"].members["data"] == Str(msg)
  {
    var d := Describe(e);
    var error := map["code" := Int(d.code), "message" := Str(d.message), "data" := Str(msg)];
    Obj(map["id" := IdOrNull(id), "jsonrpc" := Str(JsonRpc.Version), "error" := Obj(error)])
  }

  /** The code carried by an error response. */
  function EnvelopeCode(j: Json): int
    requires JsonRpc.IsErrorResponse(j)
  {
    j.members["error"].members["code"].i
  }

  /**
   * For enumerated kinds the envelope determines the kind, the message and the
   * reported id (`IdOrNull`). The call site is not kept, and neither is whether the
   * id was absent or JSON null.
   */
  lemma EnvelopeDeterminesError(e1: int, id1: Option<Json>, m1: string, e2: int, id2: Option<Json>, m2: string)
    requires IsEnumerated(e1) && IsEnumerated(e2)
    requires ErrorEnvelope(e1, id1, m1) == ErrorEnvelope(e2, id2, m2)
    ensures e1 == e2 && m1 == m2 && IdOrNull(id1) == IdOrNull(id2)
  {
    var j := ErrorEnvelope(e1, id1, m1);
    assert Int(Describe(e1).code) == j.members["error"].members["code"] == Int(Describe(e2).code);
    assert Str(m1) == j.members["error"].members["data"] == Str(m2);
    CodeDeterminesKind(e1, e2);
  }

  /** The value an error record stands for: what the dispatcher reads off a record. */
  datatype Failure = Failure(err: int, id: Option<Json>, msg: string, line: nat, file: string)

  /** An error record: its kind, envelope, request id, call site and its own copy of the message. */
  class ErrorRecord {
    var err: int
    var json: Option<Json>
    var id: Option<Json>
    var line: nat
    var file: string
    var msg: Option<string>

    /** The record describes `f` and carries the envelope built from it. */
    predicate Holds(f: Failure)
      reads this
    {
      && err == f.err && id == f.id && msg == Some(f.msg) && line == f.line && file == f.file
      && json == Some(ErrorEnvelope(f.err, f.id, f.msg))
    }

    /** `obelisk_error_create`: records kind, id, call site and message, and builds the envelope. */
    constructor Create(id: Option<Json>, e: int, msg: string, line: nat, file: string)
      ensures Holds(Failure(e, id, msg, line, file))
    {
      this.err := e;
      this.line := line;
      this.file := file;
      this.id := id;
      this.msg := Some(msg);
      this.json := None;
      new;
      BuildEnvelope();
    }

    /**
     * `obelisk_error_createf` with its message already formatted: the same record and
     * envelope as `Create` gives for that message.
     */
    constructor CreateFormatted(id: Option<Json>, e: int, line: nat, file: string, formatted: string)
      ensures Holds(Failure(e, id, formatted, line, file))
    {
      this.err := e;
      this.line := line;
      this.file := file;
      this.id := id;
      this.msg := Some(formatted);
      this.json := None;
      new;
      BuildEnvelope();
    }

    /** `obelisk_create_json_error`: fills in the envelope from the record's own fields. */
    method BuildEnvelope()
      requires msg.Some?
      modifies this`json
      ensures json == Some(ErrorEnvelope(err, id, msg.value))
    {
      var envelope: map<string, Json> := map[];
      var rpcVersion := Str(JsonRpc.Version);
      var errorObj: map<string, Json> := map[];
      var dataObj := Str(msg.value);
      var idObj := if id.Some? then id.value else Null;
      var d := Describe(err);
      var codeObj := Int(d.code);
      var msgObj := Str(d.message);
      errorObj := SetMember(errorObj, "code", Some(codeObj));
      errorObj := SetMember(errorObj, "message", Some(msgObj));
      errorObj := SetMember(errorObj, "data", Some(dataObj));
      envelope := SetMember(envelope, "id", Some(idObj));
      envelope := SetMember(envelope, "jsonrpc", Some(rpcVersion));
      envelope := SetMember(envelope, "error", Some(Obj(errorObj)));
      json := Some(Obj(envelope));
    }

    /** `obelisk_error_destroy`: releases the envelope and the message, each only when present. */
    method Destroy() returns (releasedJson: bool, releasedMsg: bool)
      modifies this`json, this`msg
      ensures releasedJson == old(json).Some? && releasedMsg == old(msg).Some?
      ensures json.None? && msg.None?
    {
      releasedJson := json.Some?;
      if releasedJson {
        json := None;
      }
      releasedMsg := msg.Some?;
      if releasedMsg {
        msg := None;
      }
    }
  }
}
