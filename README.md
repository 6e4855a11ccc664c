# micro_mcp: a verified model of `MCPServer`

This project models the protocol engine of `micro_mcp`, a MicroPython server for the Model
Context Protocol over Streamable HTTP. The model covers class `MCPServer` in
`micro_mcp/mcp_server.py`:

- the tool and resource registries (`tool`, `register_tool`, `resource`), which are
  insertion-ordered dicts;
- the single session slot, which `initialize` sets and `DELETE /mcp` clears;
- the JSON-RPC 2.0 dispatcher `_handle_jsonrpc` with `_execute_tool` and `_execute_resource`;
- the byte-level HTTP/1.1 framing of `_handle_request`: two read loops, the `Content-Length`
  scan, the request line, header fields, and routing by method and path;
- the response builder `_send_http_response`;
- the `GET /` information page.

Modules, one file each:

| file | module | what it holds |
|---|---|---|
| `wrappers.dfy` | `Wrappers` | `Option` and `Result` |
| `text.dfy` | `Text` | Python's `find`, `split`, `split()`, `join`, `strip`, `lower`, `int`, `str(n)` and UTF-8 `encode`, with their laws |
| `ordered_dict.dfy` | `OrderedDict` | Python's insertion-ordered `dict`, and what a sequence of assignments builds |
| `json.dfy` | `Json` | decoded JSON values, interpreter faults, and the library functions the server calls (`Runtime`) |
| `jsonrpc.dfy` | `JsonRpc` | the dispatcher as a pure function, and the batch loop as a function over the requests |
| `http.dfy` | `Http` | the socket as chunks, the read loops, header parsing, and the response head with its framing proofs |
| `server.dfy` | `Server` | class `McpServer` (registries, session, handlers) and the properties of a whole exchange |

Some parts change state step by step, and these are methods of class `McpServer` or of module
`Http`:

- the registries and the session slot are fields;
- the read loops, the header loop, the batch loop, the line-by-line head builder and the page
  loops are `while`/`for` loops.

Each method is proved against a function that specifies it (`Dispatch`, `Batch`, `PostOutcome`,
`RouteOutcome`, `Exchange`, `Read`, `WireAsWritten`, `Page`). The lemmas beside those functions prove what the
server promises.

The environment is modelled as follows:

- **The socket.** It is a sequence of byte chunks handed out by successive `recv` calls. An empty
  chunk, or running out of chunks, ends the stream.
- **Handlers.** Tool and resource handlers are function values that either return a JSON value or
  raise with a message.
- **Library functions.** `json.loads`, `json.dumps`, `str()` of a value, `str(e)` of an
  interpreter fault and `bytes.decode()` are fields of the `Runtime` record.
- **Session tokens.** The token minted from `unique_id()` and `time.ticks_ms()` is a parameter
  `tokens: nat -> string`. Request `i` of a batch (a single request is request 0) would mint
  `tokens(i)`.

## Behaviour as coded

The model follows the code in these places, where a reader of the protocol's design might expect
otherwise:

- A `POST /mcp` whose body after the blank line is empty is answered `400 Bad Request`, because
  `json.loads("")` raises. Only a request with no `\r\n\r\n` at all gets no answer
  (`Server.PostStatus`).
- A header field named twice keeps the value of the last line (`Http.LastFieldWins`). Field lines
  are split at the first `": "`, not the first colon, and lines without `": "` are skipped.
- `DELETE /mcp` compares the `mcp-session-id` field with the session using `==` on optional
  values. A request with no such field while no session is set is answered 200, and the session
  stays unset (`Server.DeleteMatches`).
- A list that holds something other than a dict stops at that element. The dispatcher's first
  `request.get` raises inside its `try`, but the `except` branch calls `request.get("id")` again
  (micro_mcp/mcp_server.py:293), and that raise escapes. The whole POST is then answered 400. Any `initialize` before it
  has already replaced the session (`Server.BatchRejected`).
- A `tools/call` or `resources/read` whose name or URI is a list or a dict raises inside the
  dispatcher's `try`, because `in` on a dict needs a hashable key. It is answered -32603
  (`JsonRpc.InternalErrorCause`).

## Model

| member | source | states |
|---|---|---|
| OrderedDict.Dict.Put | micro_mcp/mcp_server.py:103-110 | `d[k] = v`: an existing key keeps its position and gets the new value, a new key goes last, other keys are unaffected, and no key is ever duplicated |
| OrderedDict.PutAllListing | micro_mcp/mcp_server.py:103-110 | the dict built by a sequence of registrations holds each registered key once, with the value of its last registration, in order of first registration |
| OrderedDict.GetAt | micro_mcp/mcp_server.py:497-498 | looking up the key at position `i` gives the value at position `i` |
| Json.GetOr | micro_mcp/mcp_server.py:171-173 | `d.get(key, default)`: the stored value when the key is present, the default otherwise |
| JsonRpc.ExecuteTool | micro_mcp/mcp_server.py:142-153 | only an unhashable name escapes the helper; every other failure is reported inside the returned value |
| JsonRpc.ExecuteResource | micro_mcp/mcp_server.py:155-166 | only an unhashable URI escapes the helper; a missing resource and a failing handler are reported inside the returned value |
| JsonRpc.FetchedError | micro_mcp/mcp_server.py:246 | the test `"error" in result` holds exactly for a failed fetch, and the fields read afterwards are the fetched ones |
| JsonRpc.ResponseShape | micro_mcp/mcp_server.py:184-298 | every response object has `"jsonrpc": "2.0"`, echoes the id, has exactly one of `result` and `error`, and an error holds its code and message |
| JsonRpc.Internal | micro_mcp/mcp_server.py:290-298 | an exception inside the `try` gives error -32603 with the request's id |
| JsonRpc.ToolsCall | micro_mcp/mcp_server.py:213-230 | `tools/call` echoes the id and is an error (only ever -32603) exactly when `params` is not a dict or the name is unhashable |
| JsonRpc.ResourcesRead | micro_mcp/mcp_server.py:242-268 | `resources/read` echoes the id and is a -32603 error exactly when `params` is not a dict or the URI is unhashable; any other error is -32602 |
| JsonRpc.Dispatch | micro_mcp/mcp_server.py:168-298 | a non-dict request escapes; exactly `initialized` is a notification; answers echo `request.get("id")`; error codes are only -32601, -32602 and -32603, and -32601 exactly for unrecognised methods |
| JsonRpc.UnknownMethod | micro_mcp/mcp_server.py:278-286 | an unrecognised method gets -32601 with `Method not found: <method>` |
| JsonRpc.InternalErrorCause | micro_mcp/mcp_server.py:290-298 | -32603 arises exactly for `tools/call` or `resources/read` with non-dict params or an unhashable name or URI |
| JsonRpc.ToolsCallResult | micro_mcp/mcp_server.py:213-230 | a well-formed `tools/call` answers one text item holding the JSON of the handler's value, of `Tool not found: …`, or of `Tool execution failed: …` |
| JsonRpc.ResourcesReadResult | micro_mcp/mcp_server.py:242-268 | a missing resource or a failing handler gives -32602 with its message; success gives exactly one `contents` entry with the requested URI, the registered MIME type and the content |
| JsonRpc.InitializeResponse | micro_mcp/mcp_server.py:179-196 | `initialize` answers protocol version, capabilities, server info and the minted token under `_meta.sessionId`, and that token becomes the session |
| JsonRpc.InitializedIsSilent | micro_mcp/mcp_server.py:198-201 | `initialized` gets no response and leaves the session alone |
| JsonRpc.ToolsListFollowsRegistration | micro_mcp/mcp_server.py:203-211 | after any registrations, `tools/list` lists one schema per distinct name, the schema of its last registration, in first-registration order |
| JsonRpc.ResourcesListFollowsRegistration | micro_mcp/mcp_server.py:232-240 | the same for `resources/list` and URIs |
| JsonRpc.Batch | micro_mcp/mcp_server.py:438-444 | the batch loop keeps at most one response per request |
| JsonRpc.BatchOfObjects | micro_mcp/mcp_server.py:438-444 | a list of dicts runs to the end, keeps one response per request except `initialized`, and leaves the token of the last `initialize` as the session |
| JsonRpc.Kept | micro_mcp/mcp_server.py:442-444 | only answers are kept, in order: never more responses than replies, and each kept response is one of the answers |
| JsonRpc.BatchKeepsReplies | micro_mcp/mcp_server.py:438-444 | the responses of a list of dicts are exactly the dispatcher's answers to its requests, each dispatched on its own, in input order, without the `initialized` notifications |
| JsonRpc.BatchExtends | micro_mcp/mcp_server.py:438-444 | later requests only append responses: earlier ones keep their place, in input order |
| JsonRpc.BatchStopsAtEscape | micro_mcp/mcp_server.py:439-441 | a request that is not a dict ends the loop; nothing after it is dispatched |
| JsonRpc.BatchEscapesAt | micro_mcp/mcp_server.py:439-441 | the first non-dict raises after the dicts before it have run, with their session changes |
| JsonRpc.BatchSessionSource | micro_mcp/mcp_server.py:439-444 | after a batch the session is the one before it or a token one of its requests minted |
| JsonRpc.BatchFaultIff | micro_mcp/mcp_server.py:435-445 | a batch raises exactly when one of its elements is not a dict |
| Http.Recv | micro_mcp/mcp_server.py:333 | `recv(max)` gives at most `max` bytes, loses nothing, and is empty only at the end of the stream |
| Http.FirstDeclaration | micro_mcp/mcp_server.py:344-348 | the first line whose lower-cased form starts with `content-length:`, or none |
| Http.ScanContentLength | micro_mcp/mcp_server.py:342-350 | the scan yields the value of the first declaring line, or 0 when there is none or its value does not parse |
| Http.DeclaredLengthStable | micro_mcp/mcp_server.py:352-365 | bytes read after the head change neither where it ends nor the length it declares |
| Http.ReadHead | micro_mcp/mcp_server.py:331-350 | the first loop reads exactly what `HeadRead` describes (chunks of 1024 up to the one that completes `\r\n\r\n`, or to the end of the stream), loses no byte, leaves nothing unread without a complete head, and reads less than one chunk past the head |
| Http.ReadBody | micro_mcp/mcp_server.py:352-365 | the second loop reads exactly what `BodyRead` describes (`recv(min(1024, remaining))` until the declared length is behind the head or the stream ends), loses no byte, and stops as `ReadStops` says |
| Http.ReadRequest | micro_mcp/mcp_server.py:327-365 | the bytes read and what is left are exactly `Read` of the stream; together they are the stream, and reading stops only at the end of the stream or once the head is complete and the declared length is behind it |
| Http.FirstChunkHead | micro_mcp/mcp_server.py:331-353 | a first chunk that holds the whole head and declares no body is all that is read, whatever follows it |
| Http.BodyReadBounded | micro_mcp/mcp_server.py:357-365 | the body loop never reads past the declared length |
| Http.HeaderField | micro_mcp/mcp_server.py:395-397 | a field line splits at its first `": "`: the key is the lower-cased text before it, holding no upper-case ASCII letter, and the value is everything after it |
| Http.FieldValue | micro_mcp/mcp_server.py:393-397 | a key has a value exactly when some line names it |
| Http.LastFieldWins | micro_mcp/mcp_server.py:393-397 | the last line naming a key supplies its value |
| Http.ParseHeaders | micro_mcp/mcp_server.py:393-397 | the header loop holds exactly the named keys, each with the value of its last line |
| Http.SessionLines | micro_mcp/mcp_server.py:309-310 | the session line is sent exactly when a session is set and no extra headers were passed |
| Http.HeadLines | micro_mcp/mcp_server.py:302-318 | the head ends with the `Content-Length` line of the given length |
| Http.LengthLineValue | micro_mcp/mcp_server.py:317 | the `Content-Length` line written for `n` is read back as `n` by the request scan |
| Http.HeadLinesWellFormed | micro_mcp/mcp_server.py:302-317 | with no carriage return in status, content type, session or extra values, no head line is empty or holds a CR, and only the last declares a length |
| Http.HeadFraming | micro_mcp/mcp_server.py:300-321 | a reader framing the response finds the head's end after the `Content-Length` line, the payload behind it, and the declared length |
| Http.Wire | micro_mcp/mcp_server.py:300-321 | the corrected response, with the length counted in bytes: a complete head followed by the encoded body |
| Http.WireAsWritten | micro_mcp/mcp_server.py:300-321 | the response as written, with `len(body)` as the length: a complete head followed by the encoded body |
| Http.WireDeclaresItsBody | micro_mcp/mcp_server.py:317-321 | with the length counted in bytes, the declared length is exactly the number of body bytes, and they are the encoded body |
| Http.WireAsWrittenMiscounts | micro_mcp/mcp_server.py:317-321 | as written, the bytes behind the head are the encoded body and the head declares its number of characters, which equals the number of bytes behind the head exactly when the body is ASCII and is never more |
| Http.OneAccentedCharacter | micro_mcp/mcp_server.py:317 | the body `"é"` is declared as 1 byte but sends 2 |
| Server.SessionExtra | micro_mcp/mcp_server.py:463-466 | the extra headers of a POST 200 hold the session field exactly when the session is set |
| Server.Items | micro_mcp/mcp_server.py:517-520 | the list items are empty exactly when nothing is registered |
| Server.ItemsAt | micro_mcp/mcp_server.py:497-499 | each row appears as its own list item, between the rows before and after it |
| Server.PageListsTools | micro_mcp/mcp_server.py:496-499 | the page lists every tool in registry order with its description |
| Server.PostSessionSource | micro_mcp/mcp_server.py:418-486 | a POST leaves the session as it was or sets it to a token one of its requests minted |
| Server.PostStatus | micro_mcp/mcp_server.py:418-486 | no answer exactly without a blank line; 204 exactly for a single `initialized`; 400 exactly for a parse failure, a list holding a non-dict, or a request that is neither; 200 otherwise |
| Server.PostOutcome | micro_mcp/mcp_server.py:418-486 | the POST branch sends nothing exactly without a blank line; every answer is JSON; a 200 carries exactly the session field of the session afterwards, and any other answer no extra headers |
| Server.BatchAnswered | micro_mcp/mcp_server.py:434-470 | a list of dicts gets 200 whose body is the JSON list of the dispatcher's answers to its requests in input order, one per non-notification; the session is that of the last `initialize`, and the answer names it exactly when it is set; an empty list gets 200 too |
| Server.SingleAnswered | micro_mcp/mcp_server.py:452-470 | a single dict the dispatcher answers gets 200 whose body is `json.dumps` of that response; the session is the one the request leaves, and the answer names it exactly when it is set |
| Server.BatchRejected | micro_mcp/mcp_server.py:439-484 | a list holding a non-dict gets 400 naming the first one, with the session set by the requests before it |
| Server.DeleteMatches | micro_mcp/mcp_server.py:407-415 | `DELETE /mcp` gives 200 `{}` and clears the session exactly when the field equals the session; otherwise 404 and the session stays |
| Server.DeleteOnce | micro_mcp/mcp_server.py:407-415 | deleting the session twice: 200 then 404 |
| Server.ShortRequestLine | micro_mcp/mcp_server.py:381-384 | a request line with fewer than two words gets no answer and leaves the session alone |
| Server.RequestLineRouted | micro_mcp/mcp_server.py:381-397 | a request line `METHOD SP PATH SP VERSION` is routed by its method and path, with the `mcp-session-id` field of the lines after it |
| Server.RouteOutcome | micro_mcp/mcp_server.py:401-531 | nothing is sent exactly for a `POST /mcp` without a blank line; no route answers 500; the session changes only by `DELETE /mcp`, to nothing, or by `POST /mcp` |
| Server.Outcome | micro_mcp/mcp_server.py:323-545 | a 500 is sent exactly when the request bytes do not decode; nothing is sent exactly for a request line of fewer than two words or a `POST /mcp` without a blank line |
| Server.Exchange | micro_mcp/mcp_server.py:323-545 | whatever is sent holds a complete head and ends with the encoded body of the answer |
| Server.Page | micro_mcp/mcp_server.py:495-528 | the `GET /` page starts with `<!DOCTYPE html>` and ends with `</html>` |
| Server.OutcomeForms | micro_mcp/mcp_server.py:323-545 | every answer has a known status and content type and either no extra headers or exactly the session field; the session changes only through `DELETE /mcp` (to none) or `POST /mcp` (to a minted token) |
| Server.SessionFieldOnEveryResponse | micro_mcp/mcp_server.py:302-317 | the head carries the session field exactly when the session is set, right before `Content-Length` |
| Server.SendFramed | micro_mcp/mcp_server.py:300-321 | one response with a CR-free head: the encoded body lies behind the head, which declares the body's number of characters, equal to the bytes behind it exactly when the body is ASCII |
| Server.EveryResponseFramed | micro_mcp/mcp_server.py:300-321 | every response the server sends has a complete head with the encoded body behind it; the head declares the body's number of characters, which frames the body exactly when it is ASCII |
| Server.McpServer.constructor | micro_mcp/mcp_server.py:30-58 | a new server has the given identity, empty registries and no session |
| Server.McpServer.WithDefaults | micro_mcp/mcp_server.py:30 | the same, with `mcp-server`, `1.0.0` and `2025-03-26` |
| Server.McpServer.RegisterTool | micro_mcp/mcp_server.py:93-110 | `_tools[name]` becomes the new entry, in place if the name was taken; the registry stays the dict the logged registrations build |
| Server.McpServer.Tool | micro_mcp/mcp_server.py:81-91 | the decorator registers as `register_tool` does and gives the handler back unchanged |
| Server.McpServer.Resource | micro_mcp/mcp_server.py:122-133 | `_resources[uri]` becomes the new entry, and the handler is given back |
| Server.McpServer.PlainResource | micro_mcp/mcp_server.py:112 | `resource` without `mime_type` registers `text/plain` |
| Server.McpServer.HandleJsonRpc | micro_mcp/mcp_server.py:168-298 | the reply is the dispatcher's, and the session is the minted token after `initialize` and unchanged otherwise |
| Server.McpServer.HandleBatch | micro_mcp/mcp_server.py:434-445 | the loop's responses, the exception that ended it, and the session are those of `Batch` |
| Server.McpServer.HandlePost | micro_mcp/mcp_server.py:418-486 | the POST branch answers and sets the session as `PostOutcome` says |
| Server.McpServer.ToolItems | micro_mcp/mcp_server.py:496-499 | the loop over `_tools.keys()` builds one list item per tool, in order, with the description looked up by name |
| Server.McpServer.ResourceItems | micro_mcp/mcp_server.py:501-504 | the same for resources |
| Server.McpServer.InfoPage | micro_mcp/mcp_server.py:495-528 | the `GET /` page is `Page` of the server's state |
| Server.McpServer.SendHttpResponse | micro_mcp/mcp_server.py:300-321 | the head built line by line with `Content-Length: len(body)`, then the encoded body, is `WireAsWritten` |
| Server.McpServer.Route | micro_mcp/mcp_server.py:401-531 | the branches answer and set the session as `RouteOutcome` says, and the registries are untouched |
| Server.McpServer.HandleRequest | micro_mcp/mcp_server.py:323-545 | the bytes read and what is left are exactly `Read` of the stream, and reading stops as `ReadStops` says; what is sent and the session afterwards are `Exchange` of the bytes read |
| Server.McpServer.Respond | micro_mcp/mcp_server.py:367-545 | once the bytes are read, what is sent and the session afterwards are `Exchange` of those bytes, and the registries are untouched |

## Left out

- `run` (micro_mcp/mcp_server.py:547-587): binding, listening, accepting and the WLAN lookup are
  socket and network I/O. Each accepted connection is one `HandleRequest` call.
- `_get_pin` (micro_mcp/mcp_server.py:135-140): a cache of `machine.Pin` hardware objects that
  nothing in the server calls.
- Minting the session token from `unique_id()` and `time.ticks_ms()` is a hardware and clock
  call. The token is the parameter `tokens`, and nothing is claimed about its uniqueness.
- All `print` and `sys.print_exception` logging.
- `json.loads`, `json.dumps`, `str()`, `str(e)` and `bytes.decode()` are library calls. They are
  fields of `Json.Runtime`, and only their use is modelled. `Server.EveryResponseFramed`
  assumes that decoding an encoded string gives it back.
- A handler value that `json.dumps` cannot serialise would raise at line 226 and give -32603.
  Handlers here return JSON values, which always serialise.
- `client.send` and `client.close` failures, and the `except` around the 500 answer
  (micro_mcp/mcp_server.py:537-543): sending is the returned bytes, and it cannot fail.
- The 500 answer of `_handle_request` is modelled for the one exception its body can raise on
  request input: a request that is not valid UTF-8.
- The `if not lines` branch (micro_mcp/mcp_server.py:377-379) cannot be taken: `Text.Split`
  always returns at least one piece.
- The `accept` header is read but never used (micro_mcp/mcp_server.py:427).
- The `isinstance(body, str)` test of `_send_http_response`: every caller passes a string.
- Http.LengthValue: Python's `int` also accepts `_` between digits. In the model such a value
  does not parse, so the declared length is 0.
- `GET /mcp` server-sent events are not implemented by the source either. The 501 answer is
  modelled.
- Resource content that is `bytes` rather than a JSON value is not modelled.

## Findings

| source | as written | input that shows it | evidently intended | confidence | as-written member | corrected member |
|---|---|---|---|---|---|---|
| micro_mcp/mcp_server.py:317 | `Content-Length` is `len(body)`, which counts characters of a `str`, while line 321 sends `body.encode()` | a body holding `é` (for example a tool description on the `GET /` page): declared 1, sent 2 bytes, so a client that trusts the length stops one byte short | the number of encoded bytes, `len(body.encode())` | not executed; follows from the proofs | Http.WireAsWrittenMiscounts | Http.WireDeclaresItsBody |

`Http.OneAccentedCharacter` exhibits the one-character body. The server model sends the response
as written (`Server.Send`, `Server.McpServer.SendHttpResponse`), so `Server.EveryResponseFramed`
states the miscount for every response the server sends. `Http.Wire` is the corrected response,
and `Http.WireDeclaresItsBody` proves that its head frames every body exactly.
