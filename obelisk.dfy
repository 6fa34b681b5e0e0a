/**
 * The JSON-RPC dispatch pipeline: validating and executing one call, fanning a
 * batch out over its elements, and the decisions of the HTTP callback that turn
 * a request body into the reply payload.
 */
module Obelisk {
  import opened JsonValue
  import opened RpcError
  import opened Registry
  import JsonResponse
  import JsonRpc

  /** The `__FILE__` the dispatcher's own error records carry. */
  const SourceFile: string := "obelisk.c"

  /** What executing one call gives: a response object, or the error record that stopped it. */
  datatype Outcome = Answered(response: Json) | Failed(failure: Failure)

  /** The `method` member as text; nothing when it is missing or not a string. */
  function MethodString(request: Json): (r: Option<string>)
    ensures r.Some? <==> ObjectGet(request, "method").Some? && ObjectGet(request, "method").value.Str?
    ensures r.Some? ==> r.value == ObjectGet(request, "method").value.s
  {
    match ObjectGet(request, "method")
    case None => None
    case Some(m) => StringValue(m)
  }

  /**
   * The outcome of one call, as a precedence chain: `method` first, then `params`,
   * then resolution, then the handler. The id is only echoed, never checked.
   */
  function Execute(request: Json, baton: Baton): Outcome
    requires baton.Valid()
  {
    var id := ObjectGet(request, "id");
    match MethodString(request)
    case None => Failed(Failure(InvalidRequest, id, "method missing", 60, SourceFile))
    case Some(name) =>
      match ObjectGet(request, "params")
      case None => Failed(Failure(InvalidRequest, id, "params missing", 64, SourceFile))
      case Some(params) =>
        match Find(baton.Table(), name)
        case None => Failed(Failure(MethodNotFound, id, "", 76, SourceFile))
        case Some(k) =>
          match baton.rpc[k].cb(params)
          case Raised(f) => Failed(f)
          case Done(result) => Answered(JsonResponse.Response(result, id))
  }

  /**
   * `obelisk_execute_rpc`: the checks overwrite one error variable in turn, so the
   * "id missing" error is always replaced by what follows it; on success the
   * response object is built member by member.
   */
  method ExecuteRpc(request: Json, baton: Baton) returns (err: ErrorRecord?, response: Option<Json>)
    requires baton.Valid()
    ensures err == null <==> Execute(request, baton).Answered?
    ensures err == null ==> response == Some(Execute(request, baton).response)
    ensures err != null ==> fresh(err) && err.Holds(Execute(request, baton).failure) && response.None?
  {
    err := null;
    response := None;
    var id := ObjectGet(request, "id");
    if id.None? {
      err := new ErrorRecord.Create(id, InvalidRequest, "id missing", 53, SourceFile);
    }
    var methodObj := ObjectGet(request, "method");
    var methodString := if methodObj.Some? then StringValue(methodObj.value) else None;
    if methodString.None? {
      err := new ErrorRecord.Create(id, InvalidRequest, "method missing", 60, SourceFile);
    } else {
      var params := ObjectGet(request, "params");
      if params.None? {
        err := new ErrorRecord.Create(id, InvalidRequest, "params missing", 64, SourceFile);
      } else {
        var rpc := Lookup(methodString.value, baton);
        if rpc.None? {
          err := new ErrorRecord.Create(id, MethodNotFound, "", 76, SourceFile);
          return;
        }
        var outcome := baton.rpc[rpc.value].cb(params.value);
        if outcome.Raised? {
          var f := outcome.failure;
          err := new ErrorRecord.Create(f.id, f.err, f.msg, f.line, f.file);
          return;
        }
        // The handler's success is assigned over whatever error came before.
        err := null;
        var members: map<string, Json> := map[];
        members := SetMember(members, "jsonrpc", Some(Str(JsonRpc.Version)));
        members := SetMember(members, "result", Some(outcome.result));
        members := SetMember(members, "id", id);
        response := Some(Obj(members));
      }
    }
  }

  /** The value a batch element contributes: its response object or its error envelope. */
  function ResponseOf(o: Outcome): (j: Json)
    ensures o.Answered? ==> j == o.response
    ensures o.Failed? ==> JsonRpc.IsErrorResponse(j)
  {
    match o
    case Answered(r) => r
    case Failed(f) => ErrorEnvelope(f.err, f.id, f.msg)
  }

  /** The responses to a sequence of calls, in order. */
  function Responses(elems: seq<Json>, baton: Baton): seq<Json>
    requires baton.Valid()
  {
    if |elems| == 0 then []
    else Responses(elems[..|elems| - 1], baton) + [ResponseOf(Execute(elems[|elems| - 1], baton))]
  }

  /** One response per call, element i answering call i. */
  lemma {:induction false} ResponsesAt(elems: seq<Json>, baton: Baton)
    requires baton.Valid()
    ensures |Responses(elems, baton)| == |elems|
    ensures forall i :: 0 <= i < |elems| ==> Responses(elems, baton)[i] == ResponseOf(Execute(elems[i], baton))
  {
    if |elems| > 0 {
      ResponsesAt(elems[..|elems| - 1], baton);
    }
  }

  /**
   * The outcome of a whole request: a value of array size 0 (not an array, or the
   * empty array) is one call; any other array is a batch, which never fails.
   */
  function Dispatch(request: Json, baton: Baton): Outcome
    requires baton.Valid()
  {
    if ArraySize(request) == 0 then Execute(request, baton)
    else Answered(Arr(Responses(request.elems, baton)))
  }

  /**
   * `obelisk_run_handle`: a single call passes straight through; a batch appends, in
   * order, each element's response or its error's envelope, releasing each error.
   */
  method RunHandle(request: Json, baton: Baton) returns (err: ErrorRecord?, response: Option<Json>)
    requires baton.Valid()
    ensures ArraySize(request) == 0 ==> (err == null <==> Execute(request, baton).Answered?)
    ensures ArraySize(request) > 0 ==> err == null && response.Some? && response.value.Arr?
    ensures ArraySize(request) > 0 ==> |response.value.elems| == ArraySize(request)
    ensures ArraySize(request) > 0 ==> forall i :: 0 <= i < ArraySize(request) ==>
      response.value.elems[i] == ResponseOf(Execute(request.elems[i], baton))
    ensures err == null ==> response == Some(Dispatch(request, baton).response)
    ensures err != null ==> Dispatch(request, baton).Failed? && err.Holds(Dispatch(request, baton).failure)
  {
    err := null;
    var arraySize := ArraySize(request);
    if arraySize == 0 {
      err, response := ExecuteRpc(request, baton);
    } else {
      var elems: seq<Json> := [];
      var i := 0;
      while i < arraySize
        invariant 0 <= i <= arraySize
        invariant elems == Responses(request.elems[..i], baton)
      {
        var reqElement := request.elems[i];
        var rspErr, rspElement := ExecuteRpc(reqElement, baton);
        if rspErr != null {
          elems := elems + [rspErr.json.value];
          var _, _ := rspErr.Destroy();
        } else {
          elems := elems + [rspElement.value];
        }
        assert request.elems[..i + 1][..i] == request.elems[..i];
        i := i + 1;
      }
      assert request.elems[..i] == request.elems;
      ResponsesAt(request.elems, baton);
      response := Some(Arr(elems));
    }
  }

  /** The HTTP request method as the callback sees it. */
  datatype RequestType = Post | NotPost

  /** What `json_loads` makes of the body: a document, or the parser's error text. */
  datatype ParseResult = Parsed(value: Json) | Malformed(text: string)

  /** The JSON value serialised into the reply body; unspecified when none was ever built. */
  datatype Payload = Body(value: Json) | Unspecified

  datatype Reply = Reply(status: int, reason: string, payload: Payload)

  const HttpOk: int := 200
  const ReplyReason: string := "ej"

  /**
   * The payload the callback answers with. An empty body (or one that cannot be
   * pulled up) and a parse failure are answered without execution, with a null id;
   * an error from a single call is answered as an invalid request carrying the
   * original message; a non-POST request builds no payload.
   */
  function Respond(kind: RequestType, body: string, pulledUp: bool, parse: string -> ParseResult, baton: Baton): Payload
    requires baton.Valid()
  {
    if kind.NotPost? then Unspecified
    else if |body| == 0 || !pulledUp then Body(ErrorEnvelope(InvalidRequest, None, "Empty Request"))
    else
      match parse(body)
      case Malformed(text) => Body(ErrorEnvelope(Parse, None, text))
      case Parsed(v) =>
        match Dispatch(v, baton)
        case Answered(r) => Body(r)
        case Failed(f) => Body(ErrorEnvelope(InvalidRequest, None, f.msg))
  }

  /**
   * `obelisk_api_cb`, its decisions only: every POST request ends in the same reply
   * with status 200 and reason "ej", and the error that was answered is released.
   * The non-POST path is given the same status, which the C code does not guarantee.
   */
  method ApiCallback(kind: RequestType, body: string, pulledUp: bool, parse: string -> ParseResult, baton: Baton)
    returns (reply: Reply)
    requires baton.Valid()
    ensures reply.status == HttpOk && reply.reason == ReplyReason
    ensures reply.payload == Respond(kind, body, pulledUp, parse, baton)
  {
    var obeliskErr: ErrorRecord? := null;
    var jsRsp: Payload := Unspecified;
    if kind.NotPost? {
      // No response value is ever built on this path.
    } else if |body| == 0 {
      obeliskErr := new ErrorRecord.Create(None, InvalidRequest, "Empty Request", 163, SourceFile);
      jsRsp := Body(obeliskErr.json.value);
    } else if !pulledUp {
      obeliskErr := new ErrorRecord.Create(None, InvalidRequest, "Empty Request", 171, SourceFile);
      jsRsp := Body(obeliskErr.json.value);
    } else {
      var parsed := parse(body);
      if parsed.Malformed? {
        obeliskErr := new ErrorRecord.Create(None, Parse, parsed.text, 189, SourceFile);
        jsRsp := Body(obeliskErr.json.value);
      } else {
        var handleErr, rsp := RunHandle(parsed.value, baton);
        if handleErr != null {
          obeliskErr := new ErrorRecord.Create(None, InvalidRequest, handleErr.msg.value, 198, SourceFile);
          jsRsp := Body(obeliskErr.json.value);
        } else {
          jsRsp := Body(rsp.value);
        }
      }
    }
    reply := Reply(HttpOk, ReplyReason, jsRsp);
    if obeliskErr != null {
      var _, _ := obeliskErr.Destroy();
    }
  }
}
