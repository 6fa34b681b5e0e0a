/**
 * What the dispatcher promises, stated over the request and the registry: the
 * order of the structural checks, method resolution, handler outcomes, batch
 * fan-out and the top-level re-wrapping, plus worked requests against the
 * built-in "time" registry.
 */
module DispatchProperties {
  import opened JsonValue
  import opened RpcError
  import opened Registry
  import opened Obelisk
  import JsonResponse
  import JsonRpc

  /** A request that lacks `method`, or whose `method` is not a string, fails on that before `params` is looked at. */
  lemma MethodCheckedBeforeParams(request: Json, baton: Baton)
    requires baton.Valid()
    requires ObjectGet(request, "method").None? || !ObjectGet(request, "method").value.Str?
    ensures Execute(request, baton).Failed?
    ensures Execute(request, baton).failure.err == InvalidRequest
    ensures Execute(request, baton).failure.msg == "method missing"
    ensures Execute(request, baton).failure.id == ObjectGet(request, "id")
  {
  }

  /** With a string `method` but no `params`, the call fails as "params missing". */
  lemma ParamsCheckedSecond(request: Json, baton: Baton)
    requires baton.Valid()
    requires MethodString(request).Some? && ObjectGet(request, "params").None?
    ensures Execute(request, baton).Failed?
    ensures Execute(request, baton).failure.err == InvalidRequest
    ensures Execute(request, baton).failure.msg == "params missing"
    ensures Execute(request, baton).failure.id == ObjectGet(request, "id")
  {
  }

  /** A well-formed call to a name no searched entry bears is MethodNotFound with the request's id and an empty text. */
  lemma UnknownMethod(request: Json, baton: Baton)
    requires baton.Valid()
    requires MethodString(request).Some? && ObjectGet(request, "params").Some?
    requires forall i :: 0 <= i < baton.EntryCount() ==> baton.rpc[i].name != MethodString(request).value
    ensures Execute(request, baton).Failed?
    ensures Execute(request, baton).failure.err == MethodNotFound
    ensures Execute(request, baton).failure.msg == ""
    ensures Execute(request, baton).failure.id == ObjectGet(request, "id")
    ensures EnvelopeCode(ResponseOf(Execute(request, baton))) == -32601
  {
  }

  /**
   * A well-formed call to the registered entry `k` runs that entry's handler: its
   * error comes back unchanged, its result in a success envelope echoing the id.
   * This holds with or without an `id`: a missing id never stops the call.
   */
  lemma HandlerRuns(request: Json, baton: Baton, k: nat)
    requires baton.Valid()
    requires MethodString(request).Some? && ObjectGet(request, "params").Some?
    requires k < baton.EntryCount() && baton.rpc[k].name == MethodString(request).value
    ensures var h := baton.rpc[k].cb(ObjectGet(request, "params").value);
      && (h.Raised? ==> Execute(request, baton) == Failed(h.failure))
      && (h.Done? ==> Execute(request, baton) == Answered(JsonResponse.Response(h.result, ObjectGet(request, "id"))))
  {
    FindInSorted(baton.Table(), MethodString(request).value, k);
  }

  /**
   * A successful call without an `id` answers with an object that has no `id` member,
   * so it is not a JSON-RPC 2.0 response object; with an `id` it is one, echoing the id.
   */
  lemma SuccessEchoesId(request: Json, baton: Baton)
    requires baton.Valid()
    requires Execute(request, baton).Answered?
    ensures var r := Execute(request, baton).response;
      && r.Obj? && r.members["jsonrpc"] == Str(JsonRpc.Version) && "error" !in r.members
      && (ObjectGet(request, "id").Some? ==> JsonRpc.IsSuccessResponse(r) && r.members["id"] == ObjectGet(request, "id").value)
      && (ObjectGet(request, "id").None? ==> "id" !in r.members && !JsonRpc.IsResponseObject(r))
  {
    var id := ObjectGet(request, "id");
    JsonResponse.ResponseConforms(Execute(request, baton).response.members["result"], id);
  }

  /**
   * A non-empty array is a batch: it is always answered, with one value per element in
   * the same order, each the element's response or its error envelope.
   */
  lemma BatchFanOut(request: Json, baton: Baton)
    requires baton.Valid()
    requires ArraySize(request) > 0
    ensures Dispatch(request, baton).Answered? && Dispatch(request, baton).response.Arr?
    ensures |Dispatch(request, baton).response.elems| == |request.elems|
    ensures forall i :: 0 <= i < |request.elems| ==>
      Dispatch(request, baton).response.elems[i] == ResponseOf(Execute(request.elems[i], baton))
  {
    ResponsesAt(request.elems, baton);
  }

  /** One failing element does not disturb its siblings: each answer depends on its own element alone. */
  lemma BatchElementsIndependent(a: seq<Json>, b: seq<Json>, baton: Baton, i: nat)
    requires baton.Valid()
    requires |a| > 0 && |b| > 0 && i < |a| && i < |b| && a[i] == b[i]
    ensures Dispatch(Arr(a), baton).Answered? && Dispatch(Arr(a), baton).response.Arr?
    ensures Dispatch(Arr(b), baton).Answered? && Dispatch(Arr(b), baton).response.Arr?
    ensures |Dispatch(Arr(a), baton).response.elems| == |a| && |Dispatch(Arr(b), baton).response.elems| == |b|
    ensures Dispatch(Arr(a), baton).response.elems[i] == Dispatch(Arr(b), baton).response.elems[i]
  {
    BatchFanOut(Arr(a), baton);
    BatchFanOut(Arr(b), baton);
  }

  /** A value whose array size is 0, including the empty array itself, is executed as one call. */
  lemma ZeroSizeIsSingleCall(request: Json, baton: Baton)
    requires baton.Valid()
    requires !request.Arr? || request.elems == []
    ensures Dispatch(request, baton) == Execute(request, baton)
  {
  }

  /**
   * An empty body, or one that cannot be pulled up, is answered as InvalidRequest with
   * data "Empty Request" and a null id, and neither the parser nor the registry is consulted.
   */
  lemma EmptyBodyAnswer(body: string, pulledUp: bool, parse: string -> ParseResult, parse': string -> ParseResult, baton: Baton, baton': Baton)
    requires baton.Valid() && baton'.Valid()
    requires |body| == 0 || !pulledUp
    ensures Respond(Post, body, pulledUp, parse, baton) == Body(ErrorEnvelope(InvalidRequest, None, "Empty Request"))
    ensures Respond(Post, body, pulledUp, parse, baton) == Respond(Post, body, pulledUp, parse', baton')
    ensures EnvelopeCode(Respond(Post, body, pulledUp, parse, baton).value) == -32600
    ensures Respond(Post, body, pulledUp, parse, baton).value.members["id"] == Null
  {
  }

  /** A body the parser rejects is answered as ParseError with the parser's text and a null id, without execution. */
  lemma ParseFailureAnswer(body: string, parse: string -> ParseResult, baton: Baton, baton': Baton)
    requires baton.Valid() && baton'.Valid()
    requires |body| > 0 && parse(body).Malformed?
    ensures Respond(Post, body, true, parse, baton) == Body(ErrorEnvelope(Parse, None, parse(body).text))
    ensures Respond(Post, body, true, parse, baton) == Respond(Post, body, true, parse, baton')
    ensures EnvelopeCode(Respond(Post, body, true, parse, baton).value) == -32700
    ensures Respond(Post, body, true, parse, baton).value.members["id"] == Null
  {
  }

  /**
   * A single call that fails is answered as InvalidRequest with a null id and the
   * original error's text as data, whatever its own kind was.
   */
  lemma SingleCallErrorRewrapped(body: string, parse: string -> ParseResult, baton: Baton)
    requires baton.Valid()
    requires |body| > 0 && parse(body).Parsed?
    requires ArraySize(parse(body).value) == 0 && Execute(parse(body).value, baton).Failed?
    ensures Respond(Post, body, true, parse, baton)
         == Body(ErrorEnvelope(InvalidRequest, None, Execute(parse(body).value, baton).failure.msg))
    ensures EnvelopeCode(Respond(Post, body, true, parse, baton).value) == -32600
    ensures Respond(Post, body, true, parse, baton).value.members["id"] == Null
  {
  }

  /** A successfully parsed batch is answered by its response array, never re-wrapped. */
  lemma BatchAnswered(body: string, parse: string -> ParseResult, baton: Baton)
    requires baton.Valid()
    requires |body| > 0 && parse(body).Parsed? && ArraySize(parse(body).value) > 0
    ensures Respond(Post, body, true, parse, baton) == Body(Dispatch(parse(body).value, baton).response)
    ensures Respond(Post, body, true, parse, baton).value.Arr?
    ensures |Respond(Post, body, true, parse, baton).value.elems| == ArraySize(parse(body).value)
  {
    BatchFanOut(parse(body).value, baton);
  }

  // Worked requests against the built-in registry {"time"}, with the clock reading as a parameter.

  /** The registry of the shipped server: one entry, "time", whose handler reports the clock. */
  function TimeBaton(now: int): (b: Baton)
    ensures b.Valid() && b.EntryCount() == 1 && b.rpc[0].name == "time"
  {
    Baton(0, [MethodEntry("time", (params: Json) => Done(Int(now)))], EntrySize)
  }

  /** The call object `{"id": id, "method": name, "params": {}}`. */
  function Call(id: Json, name: string): (c: Json)
    ensures ObjectGet(c, "id") == Some(id)
    ensures MethodString(c) == Some(name)
    ensures ObjectGet(c, "params") == Some(Obj(map[]))
    ensures ArraySize(c) == 0
  {
    Obj(map["id" := id, "method" := Str(name), "params" := Obj(map[])])
  }

  lemma TimeCallAnswered(now: int)
    ensures Dispatch(Call(Int(7), "time"), TimeBaton(now))
         == Answered(JsonResponse.Response(Int(now), Some(Int(7))))
    ensures JsonRpc.IsSuccessResponse(Dispatch(Call(Int(7), "time"), TimeBaton(now)).response)
  {
    HandlerRuns(Call(Int(7), "time"), TimeBaton(now), 0);
    JsonResponse.ResponseConforms(Int(now), Some(Int(7)));
  }

  /** `{"id":1,"method":"nope","params":{}}` sent on its own is reported with code -32600, not -32601. */
  lemma UnknownSingleCallReportsInvalidRequest(now: int)
    ensures Respond(Post, "{\"id\":1,\"method\":\"nope\",\"params\":{}}", true, (s: string) => Parsed(Call(Int(1), "nope")), TimeBaton(now))
         == Body(ErrorEnvelope(InvalidRequest, None, ""))
  {
    UnknownMethod(Call(Int(1), "nope"), TimeBaton(now));
  }

  /** `{}` is reported as "method missing": the missing id never surfaces. */
  lemma EmptyObjectReportsMethodMissing(now: int)
    ensures Respond(Post, "{}", true, (s: string) => Parsed(Obj(map[])), TimeBaton(now))
         == Body(ErrorEnvelope(InvalidRequest, None, "method missing"))
  {
  }

  /** `[]` is not an empty batch: it is run as one call and reported as "method missing". */
  lemma EmptyArrayReportsMethodMissing(now: int)
    ensures Respond(Post, "[]", true, (s: string) => Parsed(Arr([])), TimeBaton(now))
         == Body(ErrorEnvelope(InvalidRequest, None, "method missing"))
  {
  }

  /** A batch of a "time" call and an unknown call: two answers, in order, the second with code -32601. */
  lemma MixedBatch(now: int)
    ensures var r := Dispatch(Arr([Call(Int(1), "time"), Call(Int(2), "nope")]), TimeBaton(now));
      && r.Answered? && r.response.Arr? && |r.response.elems| == 2
      && r.response.elems[0] == JsonResponse.Response(Int(now), Some(Int(1)))
      && r.response.elems[1] == ErrorEnvelope(MethodNotFound, Some(Int(2)), "")
      && EnvelopeCode(r.response.elems[1]) == -32601
  {
    var b := TimeBaton(now);
    var batch := [Call(Int(1), "time"), Call(Int(2), "nope")];
    BatchFanOut(Arr(batch), b);
    HandlerRuns(batch[0], b, 0);
    assert Execute(batch[0], b) == Answered(JsonResponse.Response(Int(now), Some(Int(1))));
    UnknownMethod(batch[1], b);
    assert Execute(batch[1], b) == Failed(Failure(MethodNotFound, Some(Int(2)), "", 76, SourceFile));
  }
}
