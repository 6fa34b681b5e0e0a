# obelisk: a verified model of the JSON-RPC 2.0 dispatcher

obelisk is a small JSON-RPC 2.0 server written in C. It runs inside a libevent HTTP
callback. A client POSTs one call object, or a batch array of call objects. The
dispatcher then does four things:

- it checks the structure of each call (`id`, `method`, `params`);
- it finds the method in a registry table sorted by name, using `bsearch`;
- it runs the handler;
- it answers with a success envelope or an error envelope, always with HTTP 200.

This project models that pipeline in Dafny and proves what it does.

- `json_value.dfy` (module `JsonValue`): the JSON value type, plus the jansson accessors
  the dispatcher calls. `json_object_get` gives nothing for a missing key or a
  non-object. `json_string_value` gives nothing for a non-string. `json_array_size`
  gives 0 for a non-array. `json_object_set` with a NULL value leaves the object
  unchanged.
- `json_rpc.dfy` (module `JsonRpc`): reference shapes from the JSON-RPC 2.0
  specification, written independently of the code: the response object (section 5),
  the error object and its reserved codes (section 5.1). The envelope builders are
  proved against these shapes.
- `rpc_error.dfy` (module `RpcError`, from `src/obelisk_error.c`):
  - the error kinds, numbered as in the C enumeration;
  - the kind → (code, message) table;
  - the error envelope;
  - the error record as a class. Its constructors are `obelisk_error_create` and
    `obelisk_error_createf`. `BuildEnvelope` is `obelisk_create_json_error`, and
    `Destroy` is `obelisk_error_destroy`.
- `json_response.dfy` (module `JsonResponse`, from `src/obelisk_json.c`): the success
  envelope.
- `registry.dfy` (module `Registry`, from `src/obelisk.c` and `src/obelisk.h`):
  - the `obelisk_rpc_t` entry and the `obelisk_baton_t` baton;
  - `strcmp` order, and `compare_methods` built on it;
  - a linear-scan reference definition, `Find`;
  - the `bsearch` loop, `Lookup`, proved to agree with `Find` on a sorted table.
- `obelisk.dfy` (module `Obelisk`, from `src/obelisk.c`):
  - `obelisk_execute_rpc` as the imperative method `ExecuteRpc`, keeping its
    overwrite-one-error-variable structure;
  - `obelisk_run_handle` as `RunHandle`, with the batch loop;
  - the decisions of `obelisk_api_cb` as `ApiCallback`.

  Each method is proved equal to a pure specification function: `Execute`,
  `Dispatch` and `Respond`.
- `dispatch_properties.dfy` (module `DispatchProperties`): lemmas about those
  specification functions, and worked requests against the shipped registry `{"time"}`.

The handler is a registry entry's function from params to "result or error record".
The value `time_cb` returns from the clock becomes a parameter of the worked examples.
Parsing is a parameter of the callback: a function from the body text to "document or
parser error text". Serialisation is left out; the model ends at the JSON value that
would be serialised.

Some behaviour of the code differs from what a JSON-RPC 2.0 client might expect. The
model keeps the code's behaviour:

- A single call that fails is always answered as InvalidRequest (-32600), with a null
  id and the original message as `data`. This holds even when the method is unknown,
  where MethodNotFound (-32601) would be expected. A batch element keeps its own code.
- `{}` is answered with "method missing", not "id missing". The "id missing" error is
  always overwritten by a later check or by the handler's return.
- A well-formed call without `id` still runs. Its success envelope then has no `id`
  member, so it is not a JSON-RPC 2.0 response object.
- `[]` is not an empty batch. Its array size is 0, so it runs as a single call and is
  answered with "method missing".

## Model

| member | source | states |
|---|---|---|
| RpcError.Describe | src/obelisk_error.c:36-65 | Each of the six enumerated kinds maps to a code in the JSON-RPC 2.0 reserved range. No enumerated kind maps to -32001. Server maps into the server-error band. Any value outside the enumeration maps to (-32001, "Error object not defined."). |
| RpcError.KindTable | src/obelisk_error.c:36-60 | The exact table: Parse (-32700, "Parse error."), InvalidRequest (-32600, "Invalid request."), MethodNotFound (-32601, "Method not found."), InvalidParams (-32602, "Invalid params."), Internal (-32603, "Internal error."), Server (-32000, "Server error."). |
| RpcError.CodesFollowStandard | src/obelisk_error.c:37-56 | Parse, InvalidRequest, MethodNotFound, InvalidParams and Internal report the predefined codes of section 5.1 of JSON-RPC 2.0 (-32700, -32600, -32601, -32602, -32603), defined separately from the table. |
| RpcError.CodeDeterminesKind | src/obelisk_error.c:36-65 | The six codes are pairwise distinct, so a code names at most one enumerated kind. |
| RpcError.IdOrNull | src/obelisk_error.c:34 | The envelope id is the error's id when there is one, and JSON null otherwise. |
| RpcError.ErrorEnvelope | src/obelisk_error.c:23-80 | The envelope is a JSON-RPC 2.0 error response. Its keys are exactly `id`, `jsonrpc`, `error`, so it has no `result`. `id` is the error's id or null. The nested object has exactly `code`, `message`, `data`: the kind's code, the kind's fixed text, and the record's message. |
| RpcError.EnvelopeDeterminesError | src/obelisk_error.c:67-72 | For enumerated kinds, two equal envelopes come from the same kind, the same message and the same reported id (`IdOrNull`). The call site is not kept, and neither is whether the id was absent or JSON null. |
| RpcError.ErrorRecord.Create | src/obelisk_error.c:82-97 | The new record holds the kind, the id, the call-site line and file, and its own copy of the message. Its envelope is already built from those fields. |
| RpcError.ErrorRecord.CreateFormatted | src/obelisk_error.c:99-123 | Given the already formatted message, it produces the same record and envelope as `Create` would for that message. |
| RpcError.ErrorRecord.BuildEnvelope | src/obelisk_error.c:23-80 | Inserting the members one by one leaves the record's `json` equal to `ErrorEnvelope` of its kind, id and message. No other field changes. |
| RpcError.ErrorRecord.Destroy | src/obelisk_error.c:125-135 | It releases the envelope and the message each exactly when that one is present. Afterwards neither is present. |
| JsonResponse.Response | src/obelisk_json.c:18-33 | The object has `jsonrpc` = "2.0", `result` = the given result and `id` = the given id verbatim. It has no `error`. Its keys are exactly `jsonrpc`, `result` and `id`, and `id` is absent when no id is given. |
| JsonResponse.ResponseConforms | src/obelisk_json.c:18-33 | The success envelope is a JSON-RPC 2.0 success response exactly when an id is given. |
| Registry.StrCmp | src/obelisk.c:39 | The `strcmp` sign is 0 exactly when the two names are equal. |
| Registry.StrCmpAntisymmetric | src/obelisk.c:36-40 | Swapping the two names flips the sign of the comparison. |
| Registry.StrCmpTransitive | src/obelisk.c:36-40 | `strcmp` order is transitive. Together with antisymmetry, this is what a binary search over a sorted table relies on. |
| Registry.CompareMethods | src/obelisk.c:36-40 | `compare_methods` is 0 exactly when the requested name equals the entry's name. Its sign is the opposite of the entry-first comparison. |
| Registry.Baton.Table | src/obelisk.c:72 | The searched table is exactly the first `rpc_size / sizeof(obelisk_rpc_t)` entries. |
| Registry.Find | src/obelisk.c:70-74 | Reference resolution by linear scan. It gives the first index whose name matches, or nothing exactly when no entry bears the name. |
| Registry.FindInSorted | src/obelisk.c:70-74 | In a sorted table, the entry bearing a name is unique, and it is the one the linear scan finds. |
| Registry.Lookup | src/obelisk.c:70-74 | The `bsearch` loop over the searched entries gives exactly the linear scan's answer. So it finds an entry if and only if some searched entry's name equals the requested method. |
| Obelisk.MethodString | src/obelisk.c:58-59 | `method` counts as present exactly when the member exists and is a string, and then it is that string's text. |
| Obelisk.ExecuteRpc | src/obelisk.c:42-98 | The overwriting checks give exactly the precedence chain `Execute`: method, then params, then lookup, then the handler. The "id missing" error is always replaced. On error, `*response` is not written and the record carries its envelope. On success, the inline-built object equals `obelisk_json_response` of the result and the id. |
| Obelisk.ResponseOf | src/obelisk.c:126-134 | A batch element contributes its success object unchanged, or a JSON-RPC 2.0 error response (its error's envelope). |
| Obelisk.ResponsesAt | src/obelisk.c:123-135 | The batch answers have the same length as the calls, and answer i belongs to call i. |
| Obelisk.RunHandle | src/obelisk.c:106-139 | Array size 0 (a non-array or `[]`) goes through the single-call path unchanged. Otherwise it returns no error and an array of exactly `array_size` values, where value i is element i's response or its error envelope. |
| Obelisk.ApiCallback | src/obelisk.c:141-225 | Every POST request gets a reply with status 200 and reason "ej". The payload is exactly `Respond`: empty or un-pulled body, parse failure, single-call re-wrap, or the dispatch answer. |
| DispatchProperties.MethodCheckedBeforeParams | src/obelisk.c:58-62 | A missing or non-string `method` gives InvalidRequest "method missing" with the request's id, whatever `params` holds. |
| DispatchProperties.ParamsCheckedSecond | src/obelisk.c:63-66 | With a string `method` and no `params`, the answer is InvalidRequest "params missing" with the request's id. |
| DispatchProperties.UnknownMethod | src/obelisk.c:75-78 | A well-formed call to an unregistered name gives MethodNotFound with the request's id and empty text. Its envelope code is -32601. |
| DispatchProperties.HandlerRuns | src/obelisk.c:52-55 | A well-formed call to a registered name runs that handler, with or without an `id`. A handler error is returned unchanged. A handler result is wrapped in the success envelope with the request's id. |
| DispatchProperties.SuccessEchoesId | src/obelisk.c:85-90 | A success answer has `jsonrpc` "2.0" and no `error`. With a request id, it is a JSON-RPC 2.0 success response echoing that id. Without one, it has no `id` member and is not a response object. |
| DispatchProperties.BatchFanOut | src/obelisk.c:114-136 | A non-empty array is always answered, never failed. The answer has one value per element, in order. |
| DispatchProperties.BatchElementsIndependent | src/obelisk.c:123-135 | A batch element's answer depends only on that element, so a failing sibling does not change it. |
| DispatchProperties.ZeroSizeIsSingleCall | src/obelisk.c:110-113 | A non-array, and the empty array itself, are executed as one call. |
| DispatchProperties.EmptyBodyAnswer | src/obelisk.c:161-175 | An empty or un-pulled body gives InvalidRequest (-32600) with data "Empty Request" and a null id. The answer does not depend on the parser or the registry. |
| DispatchProperties.ParseFailureAnswer | src/obelisk.c:185-193 | A parse failure gives ParseError (-32700) with the parser's text and a null id. The answer does not depend on the registry. |
| DispatchProperties.SingleCallErrorRewrapped | src/obelisk.c:195-202 | Any single-call error is answered as InvalidRequest (-32600) with a null id and the original message as data. |
| DispatchProperties.BatchAnswered | src/obelisk.c:195-204 | A parsed batch is answered by its response array, with one value per element, and is never re-wrapped. |
| DispatchProperties.TimeBaton | src/obelisk_main.c:42-60 | The shipped registry has one entry, "time", covered by `rpc_size`, and is a valid sorted table. |
| DispatchProperties.TimeCallAnswered | src/obelisk_main.c:34-40 | A "time" call with id 7 is answered with the clock reading as `result` and id 7, as a conforming success response. |
| DispatchProperties.UnknownSingleCallReportsInvalidRequest | src/obelisk.c:196-201 | `{"id":1,"method":"nope","params":{}}` sent alone is answered as InvalidRequest with a null id and empty data. |
| DispatchProperties.EmptyObjectReportsMethodMissing | src/obelisk.c:52-62 | `{}` is answered with "method missing". The missing id never surfaces. |
| DispatchProperties.EmptyArrayReportsMethodMissing | src/obelisk.c:110-113 | `[]` runs as one call and is answered with "method missing". |
| DispatchProperties.MixedBatch | src/obelisk.c:114-136 | A batch of a "time" call and an unknown call gets two answers in order: the success object, then a MethodNotFound envelope (-32601) with id 2. |

## Left out

- `obelisk_run`, `obelisk_init` and both `main` functions are not modelled. They cover daemonising, the libevent loop, socket binding and option parsing: process and I/O plumbing.
- The non-POST branch of `obelisk_api_cb` serialises a response value that was never initialised. The model answers it with `Unspecified`.
- Obelisk.ApiCallback: on the non-POST path the C code has undefined behaviour before it replies, so the status 200 the model gives there is assumed, not guaranteed by the code.
- Buffer handling (`evbuffer_*`, the terminator write), verbose logging and `json_dumps` are not modelled. The payload is the JSON value that would be serialised.
- Reference counting, `malloc`/`strdup`/`free` and their failures are not modelled. That includes the overwritten, leaked error records: the model allocates them too, but memory is not tracked.
- `vasprintf` formatting in `obelisk_error_createf` is not modelled. The constructor takes the formatted message as input.
- The clock read in `time_cb` is nondeterministic, so it is a parameter `now` of the worked examples.
- `src/ej.c`, `src/ej.h`, `src/ej_error.c` and `src/ej_error.h` are an earlier, unused snapshot and are not part of this model.
- JSON reals are not modelled. Neither are strings that contain NUL, where `strcmp` and `json_string_value` would see a shorter name.
- `strcmp` compares bytes. The model compares characters; for UTF-8 text both give the same order.
- `obelisk_run_handle` stores `json_array_size` in an `int`. Truncation for arrays of more than 2^31 - 1 elements is not modelled.
- `ErrorRecord.BuildEnvelope`: the C code inserts the nested error object into the envelope before filling it, and relies on jansson sharing the object by reference. The model fills it first and then inserts it. The final value is the same.
- `Obelisk.ExecuteRpc`: a handler allocates its own error record. Dafny functions cannot allocate, so the handler yields the record's fields and the executor allocates a record with exactly those fields.
- `Obelisk.ExecuteRpc`: a handler that reports success without setting its result is not modelled.
- `Registry.Lookup` requires what the registry itself guarantees: names strictly ascending (sorted and unique), and `rpc_size` covering only real entries. `bsearch` also accepts duplicate names, but which duplicate it returns is unspecified, so that case is not modelled.
- `sizeof(obelisk_rpc_t)` is taken as 16 (two pointers on an LP64 target). `__FILE__` is taken as "obelisk.c", and `__LINE__` as the line where each `obelisk_error_create` call begins. Both depend on the compiler invocation.
