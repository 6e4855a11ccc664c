/** The JSON-RPC 2.0 dispatcher of `MCPServer`: what one request object is answered with, the
    tool and resource lookups behind `tools/call` and `resources/read`, and the batch loop. */
module JsonRpc {
  import opened Wrappers
  import opened OrderedDict
  import opened Json

  /** Error codes of section 5.1 of the JSON-RPC 2.0 specification. */
  const ParseError := -32700
  const MethodNotFound := -32601
  const InvalidParams := -32602
  const InternalError := -32603

  /** What calling a user-supplied handler gives: its return value, or `str(e)` of what it raised. */
  datatype HandlerResult = Returned(value: Json) | Raised(message: string)

  /** A tool handler receives the call's `arguments` as keyword arguments. */
  type ToolHandler = Dict<string, Json> -> HandlerResult

  type ResourceHandler = () -> HandlerResult

  /** An entry of `_tools`: the advertised schema fields and the handler. */
  datatype ToolEntry = ToolEntry(name: string, description: string, inputSchema: Json, handler: ToolHandler)
  {
    /** `{"name": ..., "description": ..., "inputSchema": ...}` */
    function Schema(): Json {
      Object([("name", JStr(name)), ("description", JStr(description)), ("inputSchema", inputSchema)])
    }
  }

  /** An entry of `_resources`. */
  datatype ResourceEntry = ResourceEntry(uri: string, name: string, description: string, mimeType: string,
                                         handler: ResourceHandler)
  {
    /** `{"uri": ..., "name": ..., "description": ..., "mimeType": ...}` */
    function Schema(): Json {
      Object([("uri", JStr(uri)), ("name", JStr(name)), ("description", JStr(description)),
              ("mimeType", JStr(mimeType))])
    }
  }

  datatype ServerInfo = ServerInfo(name: string, version: string, protocolVersion: string)
  {
    /** `self.capabilities`: tools only. */
    function Capabilities(): Json {
      Object([("tools", Object([]))])
    }

    /** `self.server_info` */
    function Identity(): Json {
      Object([("name", JStr(name)), ("version", JStr(version))])
    }
  }

  /** Everything the dispatcher reads: it never reads the session slot, it only replaces it. */
  datatype Context = Context(info: ServerInfo, tools: Dict<string, ToolEntry>,
                             resources: Dict<string, ResourceEntry>, rt: Runtime)

  /** A response object, before it becomes a dict. */
  datatype RpcResponse =
    | RpcResult(id: Json, result: Json)
    | RpcError(id: Json, code: int, message: Json)
  {
    function ToJson(): Json {
      match this
      case RpcResult(id, result) =>
        Object([("jsonrpc", JStr("2.0")), ("id", id), ("result", result)])
      case RpcError(id, code, message) =>
        Object([("jsonrpc", JStr("2.0")), ("id", id),
                ("error", Object([("code", JInt(code)), ("message", message)]))])
    }
  }

  /** What `_handle_jsonrpc` does with one request: returns `None` (a notification), returns a
      response, or lets an exception escape (the request is not a dict, so even the `except`
      branch's `request.get("id")` fails). */
  datatype Reply = Notified | Answer(response: RpcResponse) | Escaped(fault: Fault)

  /** Every response object carries `"jsonrpc": "2.0"`, echoes the id, and has exactly one of
      `result` and `error`; an error carries an integer code and a message. */
  lemma ResponseShape(r: RpcResponse)
    ensures var o := r.ToJson().obj;
      && o.Distinct()
      && o.Keys() == ["jsonrpc", "id", if r.RpcResult? then "result" else "error"]
      && o.Get("jsonrpc") == Some(JStr("2.0"))
      && o.Get("id") == Some(r.id)
      && (o.HasKey("result") <==> !o.HasKey("error"))
      && (r.RpcError? ==> o.Get("error") == Some(Object([("code", JInt(r.code)), ("message", r.message)])))
  {
    var o := r.ToJson().obj;
    var last := if r.RpcResult? then "result" else "error";
    assert o.Keys() == ["jsonrpc", "id", last];
    assert o.Keys()[0] == "jsonrpc" && o.Keys()[1] == "id";
  }

  /** An internal error: an exception raised inside the `try` of `_handle_jsonrpc`. */
  function Internal(rt: Runtime, id: Json, f: Fault): (r: RpcResponse)
    ensures r.RpcError? && r.id == id && r.code == InternalError
  {
    RpcError(id, InternalError, JStr("Internal error: " + rt.explain(f)))
  }

  /** `{"error": message}`, the failure value of the two `_execute_*` helpers. */
  function ErrorObject(message: string): Json {
    Object([("error", JStr(message))])
  }

  /** `_execute_tool`. The membership test stands outside the helper's `try`, so an unhashable
      name escapes to the dispatcher; everything after it is caught and reported in the value. */
  function ExecuteTool(ctx: Context, toolName: Json, arguments: Json): (r: Result<Json, Fault>)
    ensures r.Failure? <==> !Hashable(toolName)
    ensures r.Failure? ==> r.error == Unhashable(toolName)
  {
    if !Hashable(toolName) then Failure(Unhashable(toolName))
    else if !toolName.JStr? || !ctx.tools.HasKey(toolName.s) then
      Success(ErrorObject("Tool not found: " + Show(ctx.rt, toolName)))
    else if !arguments.JObj? then
      Success(ErrorObject("Tool execution failed: " + ctx.rt.explain(NotMapping(arguments))))
    else
      match ctx.tools.Get(toolName.s).value.handler(arguments.obj)
      case Returned(v) => Success(v)
      case Raised(m) => Success(ErrorObject("Tool execution failed: " + m))
  }

  /** What `_execute_resource` returns: `{"error": ...}` or `{"content": ..., "mimeType": ...}`. */
  datatype Fetched = FetchFailed(message: string) | Fetched(content: Json, mimeType: string)
  {
    function ToJson(): Json {
      match this
      case FetchFailed(m) => ErrorObject(m)
      case Fetched(c, t) => Object([("content", c), ("mimeType", JStr(t))])
    }
  }

  /** The dispatcher's test `"error" in result` tells exactly the failures apart. */
  lemma FetchedError(f: Fetched)
    ensures f.ToJson().obj.HasKey("error") <==> f.FetchFailed?
    ensures f.FetchFailed? ==> f.ToJson().obj.Get("error") == Some(JStr(f.message))
    ensures f.Fetched? ==>
      f.ToJson().obj.Get("mimeType") == Some(JStr(f.mimeType)) && f.ToJson().obj.Get("content") == Some(f.content)
  {
    assert f.ToJson().obj.Keys() == if f.FetchFailed? then ["error"] else ["content", "mimeType"];
  }

  /** `_execute_resource`: as `_execute_tool`, an unhashable URI escapes the helper. */
  function ExecuteResource(ctx: Context, uri: Json): (r: Result<Fetched, Fault>)
    ensures r.Failure? <==> !Hashable(uri)
    ensures r.Failure? ==> r.error == Unhashable(uri)
  {
    if !Hashable(uri) then Failure(Unhashable(uri))
    else if !uri.JStr? || !ctx.resources.HasKey(uri.s) then
      Success(FetchFailed("Resource not found: " + Show(ctx.rt, uri)))
    else
      var entry := ctx.resources.Get(uri.s).value;
      match entry.handler()
      case Returned(c) => Success(Fetched(c, entry.mimeType))
      case Raised(m) => Success(FetchFailed("Resource fetch failed: " + m))
  }

  /** `[entry["schema"] for entry in d.values()]` */
  function ToolSchemas(tools: Dict<string, ToolEntry>): (schemas: seq<Json>)
    ensures |schemas| == |tools.entries|
  {
    seq(|tools.entries|, i requires 0 <= i < |tools.entries| => tools.Values()[i].Schema())
  }

  function ResourceSchemas(resources: Dict<string, ResourceEntry>): (schemas: seq<Json>)
    ensures |schemas| == |resources.entries|
  {
    seq(|resources.entries|, i requires 0 <= i < |resources.entries| => resources.Values()[i].Schema())
  }

  /** The `result` of `initialize`. */
  function InitializeResult(info: ServerInfo, token: string): Json {
    Object([("protocolVersion", JStr(info.protocolVersion)), ("capabilities", info.Capabilities()),
            ("serverInfo", info.Identity()), ("_meta", Object([("sessionId", JStr(token))]))])
  }

  /** The `tools/call` branch. */
  function ToolsCall(ctx: Context, id: Json, params: Json): (r: RpcResponse)
    ensures r.id == id
    ensures r.RpcError? <==> !params.JObj? || !Hashable(GetOr(params.obj, "name", JNull))
    ensures r.RpcError? ==> r.code == InternalError
  {
    if !params.JObj? then Internal(ctx.rt, id, NoGetMethod(params))
    else
      match ExecuteTool(ctx, GetOr(params.obj, "name", JNull), GetOr(params.obj, "arguments", Object([])))
      case Failure(f) => Internal(ctx.rt, id, f)
      case Success(result) =>
        RpcResult(id, Object([("content", JArr([TextContent(ctx.rt.dumps(result))]))]))
  }

  /** `{"type": "text", "text": text}` */
  function TextContent(text: string): Json {
    Object([("type", JStr("text")), ("text", JStr(text))])
  }

  /** The `resources/read` branch. */
  function ResourcesRead(ctx: Context, id: Json, params: Json): (r: RpcResponse)
    ensures r.id == id
    ensures r.RpcError? && r.code == InternalError <==> !params.JObj? || !Hashable(GetOr(params.obj, "uri", JNull))
    ensures r.RpcError? ==> r.code == InternalError || r.code == InvalidParams
  {
    if !params.JObj? then Internal(ctx.rt, id, NoGetMethod(params))
    else
      var uri := GetOr(params.obj, "uri", JNull);
      match ExecuteResource(ctx, uri)
      case Failure(f) => Internal(ctx.rt, id, f)
      case Success(FetchFailed(m)) => RpcError(id, InvalidParams, JStr(m))
      case Success(Fetched(content, mimeType)) =>
        RpcResult(id, Object([("contents", JArr([Object([("uri", uri), ("mimeType", JStr(mimeType)),
                                                          ("text", content)])]))]))
  }

  /** The methods the dispatcher recognises. */
  const KnownMethods: set<string> :=
    {"initialize", "initialized", "tools/list", "tools/call", "resources/list", "resources/read", "ping"}

  /** `request.get(key, default)` on the request, when it is a dict. */
  function Field(request: Json, key: string, default: Json): Json
    requires request.JObj?
  {
    GetOr(request.obj, key, default)
  }

  /** `_handle_jsonrpc(request)`, with `token` the session id that `initialize` would mint.
      What a request gets back, by kind: a non-dict escapes, `initialized` alone is a notification,
      every answer echoes `request.get("id")`, and the only error codes are -32601, -32602 and -32603,
      -32601 exactly for unrecognised methods. */
  function Dispatch(ctx: Context, request: Json, token: string): (reply: Reply)
    ensures reply.Escaped? <==> !request.JObj?
    ensures reply.Escaped? ==> reply.fault == NoGetMethod(request)
    ensures reply.Notified? <==> request.JObj? && Field(request, "method", JNull) == JStr("initialized")
    ensures reply.Answer? ==> reply.response.id == Field(request, "id", JNull)
    ensures reply.Answer? && reply.response.RpcError? ==>
      reply.response.code in {MethodNotFound, InvalidParams, InternalError}
    ensures reply.Answer? && reply.response.RpcError? && reply.response.code == MethodNotFound <==>
      request.JObj? && !Recognised(Field(request, "method", JNull))
  {
    if !request.JObj? then Escaped(NoGetMethod(request))
    else
      var verb := Field(request, "method", JNull);
      var params := Field(request, "params", Object([]));
      var id := Field(request, "id", JNull);
      if verb == JStr("initialize") then Answer(RpcResult(id, InitializeResult(ctx.info, token)))
      else if verb == JStr("initialized") then Notified
      else if verb == JStr("tools/list") then
        Answer(RpcResult(id, Object([("tools", JArr(ToolSchemas(ctx.tools)))])))
      else if verb == JStr("tools/call") then Answer(ToolsCall(ctx, id, params))
      else if verb == JStr("resources/list") then
        Answer(RpcResult(id, Object([("resources", JArr(ResourceSchemas(ctx.resources)))])))
      else if verb == JStr("resources/read") then Answer(ResourcesRead(ctx, id, params))
      else if verb == JStr("ping") then Answer(RpcResult(id, Object([])))
      else Answer(RpcError(id, MethodNotFound, JStr("Method not found: " + Show(ctx.rt, verb))))
  }

  /** The request is an `initialize` call, the one request that replaces the session id. */
  predicate StartsSession(request: Json) {
    request.JObj? && Field(request, "method", JNull) == JStr("initialize")
  }

  /** `_session_id` after `_handle_jsonrpc(request)`. */
  function SessionAfter(request: Json, session: Option<string>, token: string): Option<string> {
    if StartsSession(request) then Some(token) else session
  }

  /** The method name is one the dispatcher has a branch for. */
  predicate Recognised(verb: Json) {
    verb.JStr? && verb.s in KnownMethods
  }

  /** An unrecognised method gets -32601 naming the method as an f-string shows it. */
  lemma UnknownMethod(ctx: Context, request: Json, token: string)
    requires request.JObj? && !Recognised(Field(request, "method", JNull))
    ensures Dispatch(ctx, request, token) ==
      Answer(RpcError(Field(request, "id", JNull), MethodNotFound,
                      JStr("Method not found: " + Show(ctx.rt, Field(request, "method", JNull)))))
  {
  }

  /** -32603 arises only where an exception is raised inside the dispatcher's `try`: `params` of
      `tools/call` or `resources/read` is not a dict, or the name or URI looked up is a list or a dict. */
  lemma {:induction false} InternalErrorCause(ctx: Context, request: Json, token: string)
    requires request.JObj?
    ensures var reply := Dispatch(ctx, request, token);
      var verb, params := Field(request, "method", JNull), Field(request, "params", Object([]));
      (reply.Answer? && reply.response.RpcError? && reply.response.code == InternalError) <==>
        ((verb == JStr("tools/call") || verb == JStr("resources/read"))
         && (!params.JObj? ||
             !Hashable(GetOr(params.obj, if verb == JStr("tools/call") then "name" else "uri", JNull))))
  {
  }

  /** `tools/call` with a dict of params and a hashable name never answers with a JSON-RPC error:
      the result holds one text item, the JSON text of what `_execute_tool` returned, which is the
      handler's value, or `{"error": ...}` naming a missing tool or the handler's failure. */
  lemma {:induction false} ToolsCallResult(ctx: Context, request: Json, token: string)
    requires request.JObj? && Field(request, "method", JNull) == JStr("tools/call")
    requires Field(request, "params", Object([])).JObj?
    requires Hashable(GetOr(Field(request, "params", Object([])).obj, "name", JNull))
    ensures var params := Field(request, "params", Object([])).obj;
      var name, arguments := GetOr(params, "name", JNull), GetOr(params, "arguments", Object([]));
      exists result: Json ::
        && Dispatch(ctx, request, token) ==
             Answer(RpcResult(Field(request, "id", JNull),
                              Object([("content", JArr([TextContent(ctx.rt.dumps(result))]))])))
        && (!name.JStr? || !ctx.tools.HasKey(name.s) ==>
              result == ErrorObject("Tool not found: " + Show(ctx.rt, name)))
        && (name.JStr? && ctx.tools.HasKey(name.s) ==>
              if !arguments.JObj? then
                result == ErrorObject("Tool execution failed: " + ctx.rt.explain(NotMapping(arguments)))
              else match ctx.tools.Get(name.s).value.handler(arguments.obj)
                case Returned(v) => result == v
                case Raised(m) => result == ErrorObject("Tool execution failed: " + m))
  {
    var params := Field(request, "params", Object([])).obj;
    var name, arguments := GetOr(params, "name", JNull), GetOr(params, "arguments", Object([]));
    var result := ExecuteTool(ctx, name, arguments).value;
    assert Dispatch(ctx, request, token) ==
      Answer(RpcResult(Field(request, "id", JNull),
                       Object([("content", JArr([TextContent(ctx.rt.dumps(result))]))])));
  }

  /** `resources/read` with a dict of params and a hashable URI: a missing resource and a failing
      handler are -32602 errors; success is exactly one `contents` entry holding the requested URI,
      the registered MIME type and the handler's content. */
  lemma {:induction false} ResourcesReadResult(ctx: Context, request: Json, token: string)
    requires request.JObj? && Field(request, "method", JNull) == JStr("resources/read")
    requires Field(request, "params", Object([])).JObj?
    requires Hashable(GetOr(Field(request, "params", Object([])).obj, "uri", JNull))
    ensures var uri := GetOr(Field(request, "params", Object([])).obj, "uri", JNull);
      var id := Field(request, "id", JNull);
      var reply := Dispatch(ctx, request, token);
      && (!uri.JStr? || !ctx.resources.HasKey(uri.s) ==>
            reply == Answer(RpcError(id, InvalidParams, JStr("Resource not found: " + Show(ctx.rt, uri)))))
      && (uri.JStr? && ctx.resources.HasKey(uri.s) ==>
            var entry := ctx.resources.Get(uri.s).value;
            match entry.handler()
            case Raised(m) =>
              reply == Answer(RpcError(id, InvalidParams, JStr("Resource fetch failed: " + m)))
            case Returned(c) =>
              && reply.Answer? && reply.response.RpcResult? && reply.response.id == id
              && reply.response.result.obj.Keys() == ["contents"]
              && exists item: Json ::
                   && reply.response.result.obj.Get("contents") == Some(JArr([item]))
                   && item.obj.Get("uri") == Some(uri)
                   && item.obj.Get("mimeType") == Some(JStr(entry.mimeType))
                   && item.obj.Get("text") == Some(c))
  {
    var params := Field(request, "params", Object([]));
    var uri, id := GetOr(params.obj, "uri", JNull), Field(request, "id", JNull);
    var reply := Dispatch(ctx, request, token);
    assert reply == Answer(ResourcesRead(ctx, id, params));
    if uri.JStr? && ctx.resources.HasKey(uri.s) {
      var entry := ctx.resources.Get(uri.s).value;
      if entry.handler().Returned? {
        var item := Object([("uri", uri), ("mimeType", JStr(entry.mimeType)), ("text", entry.handler().value)]);
        ContentsFields(uri, entry.mimeType, entry.handler().value);
        assert reply.response.result == Object([("contents", JArr([item]))]);
      }
    }
  }

  /** The fields of the one `contents` entry and of the result around it. */
  lemma ContentsFields(uri: Json, mimeType: string, content: Json)
    ensures var item := Object([("uri", uri), ("mimeType", JStr(mimeType)), ("text", content)]);
      var result := Object([("contents", JArr([item]))]);
      && item.obj.Get("uri") == Some(uri)
      && item.obj.Get("mimeType") == Some(JStr(mimeType))
      && item.obj.Get("text") == Some(content)
      && result.obj.Keys() == ["contents"]
      && result.obj.Get("contents") == Some(JArr([item]))
  {
    var item := Object([("uri", uri), ("mimeType", JStr(mimeType)), ("text", content)]);
    assert item.obj.Keys() == ["uri", "mimeType", "text"];
  }

  /** `initialize` answers with the protocol version, the capabilities, the server's name and
      version, and the freshly minted token under `_meta.sessionId`; that token becomes the session. */
  lemma {:induction false} InitializeResponse(ctx: Context, request: Json, token: string, session: Option<string>)
    requires StartsSession(request)
    ensures var reply := Dispatch(ctx, request, token);
      && reply.Answer? && reply.response.RpcResult?
      && reply.response.id == Field(request, "id", JNull)
      && reply.response.result.obj.Get("protocolVersion") == Some(JStr(ctx.info.protocolVersion))
      && reply.response.result.obj.Get("capabilities") == Some(ctx.info.Capabilities())
      && reply.response.result.obj.Get("serverInfo") == Some(ctx.info.Identity())
      && reply.response.result.obj.Get("_meta") == Some(Object([("sessionId", JStr(token))]))
      && SessionAfter(request, session, token) == Some(token)
  {
    var r := InitializeResult(ctx.info, token);
    assert r.obj.Keys() == ["protocolVersion", "capabilities", "serverInfo", "_meta"];
    assert r.obj.Keys()[0] != "capabilities" && r.obj.Keys()[1] != "serverInfo";
  }

  /** `initialized` is answered with nothing and leaves the session as it was. */
  lemma InitializedIsSilent(ctx: Context, request: Json, token: string, session: Option<string>)
    requires request.JObj? && Field(request, "method", JNull) == JStr("initialized")
    ensures Dispatch(ctx, request, token) == Notified
    ensures SessionAfter(request, session, token) == session
  {
  }

  /** After the registrations `regs`, in order, `tools/list` lists one schema per registered name,
      the schema of that name's last registration, in the order of first registration. */
  lemma ToolsListFollowsRegistration(ctx: Context, request: Json, token: string,
                                     regs: seq<(string, ToolEntry)>)
    requires ctx.tools == PutAll(regs)
    requires request.JObj? && Field(request, "method", JNull) == JStr("tools/list")
    ensures var names, schemas := ctx.tools.Keys(), ToolSchemas(ctx.tools);
      && Dispatch(ctx, request, token) ==
           Answer(RpcResult(Field(request, "id", JNull), Object([("tools", JArr(schemas))])))
      && |schemas| == |names|
      && (forall i, j :: 0 <= i < j < |names| ==> names[i] != names[j])
      && (forall n :: n in names <==> n in Names(regs))
      && (forall i :: 0 <= i < |names| ==> schemas[i] == LastValue(regs, names[i]).Schema())
      && (forall i, j :: 0 <= i < j < |names| ==> AssignedBefore(Names(regs), names[i], names[j]))
  {
    ToolsListAnswer(ctx, request, token);
    PutAllListing(regs);
  }

  lemma ToolsListAnswer(ctx: Context, request: Json, token: string)
    requires request.JObj? && Field(request, "method", JNull) == JStr("tools/list")
    ensures Dispatch(ctx, request, token) ==
      Answer(RpcResult(Field(request, "id", JNull), Object([("tools", JArr(ToolSchemas(ctx.tools)))])))
  {
  }

  /** The same for `resources/list`. */
  lemma ResourcesListFollowsRegistration(ctx: Context, request: Json, token: string,
                                         regs: seq<(string, ResourceEntry)>)
    requires ctx.resources == PutAll(regs)
    requires request.JObj? && Field(request, "method", JNull) == JStr("resources/list")
    ensures var uris, schemas := ctx.resources.Keys(), ResourceSchemas(ctx.resources);
      && Dispatch(ctx, request, token) ==
           Answer(RpcResult(Field(request, "id", JNull), Object([("resources", JArr(schemas))])))
      && |schemas| == |uris|
      && (forall i, j :: 0 <= i < j < |uris| ==> uris[i] != uris[j])
      && (forall u :: u in uris <==> u in Names(regs))
      && (forall i :: 0 <= i < |uris| ==> schemas[i] == LastValue(regs, uris[i]).Schema())
      && (forall i, j :: 0 <= i < j < |uris| ==> AssignedBefore(Names(regs), uris[i], uris[j]))
  {
    ResourcesListAnswer(ctx, request, token);
    PutAllListing(regs);
  }

  lemma ResourcesListAnswer(ctx: Context, request: Json, token: string)
    requires request.JObj? && Field(request, "method", JNull) == JStr("resources/list")
    ensures Dispatch(ctx, request, token) ==
      Answer(RpcResult(Field(request, "id", JNull), Object([("resources", JArr(ResourceSchemas(ctx.resources)))])))
  {
  }

  /** The batch loop of the POST handler after the requests `reqs`: the responses kept so far, the
      exception that ended the loop if one did, and the session slot. Request `i` is the one that
      would mint `tokens(i)` if it were an `initialize`. */
  datatype BatchState = BatchState(answers: seq<RpcResponse>, fault: Option<Fault>, session: Option<string>)

  function Batch(ctx: Context, reqs: seq<Json>, tokens: nat -> string, session: Option<string>): (b: BatchState)
    ensures |b.answers| <= |reqs|
  {
    if reqs == [] then BatchState([], None, session)
    else
      var n := |reqs| - 1;
      var b := Batch(ctx, reqs[..n], tokens, session);
      if b.fault.Some? then b
      else
        var s := SessionAfter(reqs[n], b.session, tokens(n));
        match Dispatch(ctx, reqs[n], tokens(n))
        case Notified => BatchState(b.answers, None, s)
        case Answer(r) => BatchState(b.answers + [r], None, s)
        case Escaped(f) => BatchState(b.answers, Some(f), s)
  }

  /** What the dispatcher gives back for each request on its own: request `i` would mint `tokens(i)`. */
  function Replies(ctx: Context, reqs: seq<Json>, tokens: nat -> string): (replies: seq<Reply>)
    ensures |replies| == |reqs|
  {
    seq(|reqs|, i requires 0 <= i < |reqs| => Dispatch(ctx, reqs[i], tokens(i)))
  }

  /** The responses among `replies`, in order: what `if response is not None: responses.append(...)`
      keeps. */
  function Kept(replies: seq<Reply>): (kept: seq<RpcResponse>)
    ensures |kept| <= |replies|
    ensures forall k :: 0 <= k < |kept| ==> Answer(kept[k]) in replies
  {
    if replies == [] then []
    else
      var last := replies[|replies| - 1];
      Kept(replies[..|replies| - 1]) + if last.Answer? then [last.response] else []
  }

  /** How many of the requests are `initialized` notifications. */
  function Notifications(reqs: seq<Json>): (n: nat)
    ensures n <= |reqs|
  {
    if reqs == [] then 0
    else
      var last := reqs[|reqs| - 1];
      Notifications(reqs[..|reqs| - 1])
        + if last.JObj? && Field(last, "method", JNull) == JStr("initialized") then 1 else 0
  }

  /** The position of the last `initialize` request, if any. */
  function LastStart(reqs: seq<Json>): (r: Option<nat>)
    ensures r.Some? ==> r.value < |reqs| && StartsSession(reqs[r.value])
    ensures r.Some? ==> forall i :: r.value < i < |reqs| ==> !StartsSession(reqs[i])
    ensures r.None? ==> forall i :: 0 <= i < |reqs| ==> !StartsSession(reqs[i])
  {
    if reqs == [] then None
    else if StartsSession(reqs[|reqs| - 1]) then Some(|reqs| - 1)
    else LastStart(reqs[..|reqs| - 1])
  }

  /** A batch of dicts runs to its end: one response per request except the `initialized`
      notifications, and the session is the token of the last `initialize`, or what it was. */
  lemma {:induction false} BatchOfObjects(ctx: Context, reqs: seq<Json>, tokens: nat -> string,
                                          session: Option<string>)
    requires forall i :: 0 <= i < |reqs| ==> reqs[i].JObj?
    ensures var b := Batch(ctx, reqs, tokens, session);
      && b.fault.None?
      && |b.answers| == |reqs| - Notifications(reqs)
      && b.session == match LastStart(reqs) case Some(i) => Some(tokens(i)) case None => session
  {
    if reqs != [] {
      var n := |reqs| - 1;
      BatchOfObjects(ctx, reqs[..n], tokens, session);
      assert reqs[..n][..n] == reqs[..n];
      if !StartsSession(reqs[n]) {
        assert LastStart(reqs) == LastStart(reqs[..n]);
      }
    }
  }

  /** The responses of a batch of dicts are the dispatcher's answers to its requests, each
      dispatched on its own, in input order. */
  lemma {:induction false} BatchKeepsReplies(ctx: Context, reqs: seq<Json>, tokens: nat -> string,
                                             session: Option<string>)
    requires forall i :: 0 <= i < |reqs| ==> reqs[i].JObj?
    ensures Batch(ctx, reqs, tokens, session).answers == Kept(Replies(ctx, reqs, tokens))
  {
    if reqs != [] {
      var n := |reqs| - 1;
      BatchKeepsReplies(ctx, reqs[..n], tokens, session);
      assert Batch(ctx, reqs[..n], tokens, session).fault.None? by {
        BatchOfObjects(ctx, reqs[..n], tokens, session);
      }
      RepliesSnoc(ctx, reqs, tokens);
      KeptSnoc(Replies(ctx, reqs[..n], tokens), Dispatch(ctx, reqs[n], tokens(n)));
    }
  }

  lemma RepliesSnoc(ctx: Context, reqs: seq<Json>, tokens: nat -> string)
    requires reqs != []
    ensures var n := |reqs| - 1;
      Replies(ctx, reqs, tokens) == Replies(ctx, reqs[..n], tokens) + [Dispatch(ctx, reqs[n], tokens(n))]
  {
  }

  lemma KeptSnoc(replies: seq<Reply>, reply: Reply)
    ensures Kept(replies + [reply]) == Kept(replies) + if reply.Answer? then [reply.response] else []
  {
    assert (replies + [reply])[..|replies|] == replies;
  }

  /** Later requests only add responses after the earlier ones: each response keeps its place. */
  lemma {:induction false} BatchExtends(ctx: Context, reqs: seq<Json>, more: seq<Json>, tokens: nat -> string,
                                        session: Option<string>)
    ensures var b, b' := Batch(ctx, reqs, tokens, session), Batch(ctx, reqs + more, tokens, session);
      b.answers <= b'.answers && (b.fault.Some? ==> b' == b)
  {
    if more != [] {
      var n := |more| - 1;
      var whole, front := reqs + more, reqs + more[..n];
      assert whole[..|whole| - 1] == front;
      BatchExtends(ctx, reqs, more[..n], tokens, session);
      BatchGrows(ctx, whole, tokens, session);
      var a, a', a'' := Batch(ctx, reqs, tokens, session).answers, Batch(ctx, front, tokens, session).answers,
        Batch(ctx, whole, tokens, session).answers;
      assert a'[..|a|] == a && a''[..|a'|] == a';
      assert a''[..|a|] == a'[..|a|];
    } else {
      assert reqs + more == reqs;
    }
  }

  /** One more request keeps the responses so far in front, and after an exception changes nothing. */
  lemma BatchGrows(ctx: Context, reqs: seq<Json>, tokens: nat -> string, session: Option<string>)
    requires reqs != []
    ensures var b0, b := Batch(ctx, reqs[..|reqs| - 1], tokens, session), Batch(ctx, reqs, tokens, session);
      b0.answers <= b.answers && (b0.fault.Some? ==> b == b0)
  {
    var b0 := Batch(ctx, reqs[..|reqs| - 1], tokens, session);
    assert b0.answers <= b0.answers + Batch(ctx, reqs, tokens, session).answers[|b0.answers|..];
  }

  /** A request that is not a dict ends the batch: nothing after it is dispatched. */
  lemma {:induction false} BatchStopsAtEscape(ctx: Context, reqs: seq<Json>, more: seq<Json>,
                                              tokens: nat -> string, session: Option<string>)
    requires |reqs| > 0 && !reqs[|reqs| - 1].JObj?
    ensures Batch(ctx, reqs + more, tokens, session) == Batch(ctx, reqs, tokens, session)
    ensures Batch(ctx, reqs, tokens, session).fault.Some?
  {
    BatchExtends(ctx, reqs, more, tokens, session);
  }

  /** The first request that is not a dict raises, after the dicts before it have run. */
  lemma BatchEscapesAt(ctx: Context, reqs: seq<Json>, k: nat, tokens: nat -> string, session: Option<string>)
    requires k < |reqs| && !reqs[k].JObj? && forall i :: 0 <= i < k ==> reqs[i].JObj?
    ensures var b := Batch(ctx, reqs, tokens, session);
      && b.fault == Some(NoGetMethod(reqs[k]))
      && b.session == match LastStart(reqs[..k]) case Some(i) => Some(tokens(i)) case None => session
  {
    var front := reqs[..k + 1];
    var b0 := Batch(ctx, reqs[..k], tokens, session);
    assert b0.fault.None? && b0.session == match LastStart(reqs[..k]) case Some(i) => Some(tokens(i)) case None => session by {
      BatchOfObjects(ctx, reqs[..k], tokens, session);
    }
    assert Batch(ctx, front, tokens, session) == BatchState(b0.answers, Some(NoGetMethod(reqs[k])), b0.session) by {
      assert front[..k] == reqs[..k] && front[k] == reqs[k];
    }
    assert Batch(ctx, reqs, tokens, session) == Batch(ctx, front, tokens, session) by {
      BatchStopsAtEscape(ctx, front, reqs[k + 1..], tokens, session);
      assert front + reqs[k + 1..] == reqs;
    }
  }

  /** The session after a batch is the one before it or a token minted by one of its requests. */
  lemma {:induction false} BatchSessionSource(ctx: Context, reqs: seq<Json>, tokens: nat -> string,
                                              session: Option<string>)
    ensures var s := Batch(ctx, reqs, tokens, session).session;
      s == session || exists i :: 0 <= i < |reqs| && s == Some(tokens(i))
  {
    if reqs != [] {
      var n := |reqs| - 1;
      BatchSessionSource(ctx, reqs[..n], tokens, session);
      var s := Batch(ctx, reqs[..n], tokens, session).session;
      if s != session {
        var i :| 0 <= i < n && s == Some(tokens(i));
        assert 0 <= i < |reqs|;
      }
    }
  }

  /** A batch ends in an exception exactly when one of its requests is not a dict. */
  lemma {:induction false} BatchFaultIff(ctx: Context, reqs: seq<Json>, tokens: nat -> string,
                                         session: Option<string>)
    ensures Batch(ctx, reqs, tokens, session).fault.Some? <==> exists i :: 0 <= i < |reqs| && !reqs[i].JObj?
  {
    if reqs != [] {
      var n := |reqs| - 1;
      BatchFaultIff(ctx, reqs[..n], tokens, session);
      if exists i :: 0 <= i < n && !reqs[..n][i].JObj? {
        var i :| 0 <= i < n && !reqs[..n][i].JObj?;
        assert !reqs[i].JObj?;
      } else {
        assert forall i :: 0 <= i < n ==> reqs[i].JObj? by {
          forall i | 0 <= i < n ensures reqs[i].JObj? {
            assert reqs[..n][i] == reqs[i];
          }
        }
      }
    }
  }
}
