/** `MCPServer` itself: the registries, the session slot, and the handling of one HTTP exchange
    on top of the dispatcher and the HTTP framing. */
module Server {
  import opened Wrappers
  import opened Text
  import opened OrderedDict
  import opened Json
  import opened JsonRpc
  import opened Http

  /** The defaults of the constructor's keyword arguments. */
  const DefaultName: string := "mcp-server"
  const DefaultVersion: string := "1.0.0"
  const DefaultProtocolVersion: string := "2025-03-26"

  /** The default `mime_type` of `resource`. */
  const DefaultMimeType: string := "text/plain"

  /** The arguments of one `_send_http_response` call; `extra` is `extra_headers`, `None` or a dict. */
  datatype Response = Response(status: string, contentType: string, body: string,
                               extra: Option<seq<(string, string)>>)

  /** The bytes `_send_http_response` puts on the socket for `r` while the session slot holds
      `session`: `Content-Length` is `len(body)`, as written. */
  function Send(r: Response, session: Option<string>): seq<byte> {
    WireAsWritten(r.status, r.contentType, session, r.extra, r.body)
  }

  /** Each line followed by CRLF, as the response head is built up with `+=`. */
  function Lines(lines: seq<string>): string {
    if lines == [] then ""
    else Lines(lines[..|lines| - 1]) + (lines[|lines| - 1] + CRLF)
  }

  lemma LinesSnoc(lines: seq<string>, line: string)
    ensures Lines(lines + [line]) == Lines(lines) + (line + CRLF)
  {
    assert (lines + [line])[..|lines|] == lines;
  }

  lemma {:induction false} LinesJoin(lines: seq<string>)
    requires lines != []
    ensures Lines(lines) == Join(lines, CRLF) + CRLF
  {
    var n := |lines| - 1;
    if n > 0 {
      LinesJoin(lines[..n]);
      JoinSnoc(lines[..n], lines[n], CRLF);
      assert lines[..n] + [lines[n]] == lines;
    }
  }

  /** The head text built line by line is the head `Http.Head` describes. */
  lemma HeadText(lines: seq<string>, response: string)
    requires lines != [] && response == Lines(lines) + CRLF
    ensures response == Join(lines, CRLF) + CRLF + CRLF
  {
    LinesJoin(lines);
  }

  /** The 400 answer of the POST handler: a JSON-RPC parse error naming what went wrong. */
  function BadRequest(rt: Runtime, message: string): Response {
    Response("400 Bad Request", "application/json",
             rt.dumps(Object([("jsonrpc", JStr("2.0")),
                              ("error", Object([("code", JInt(ParseError)),
                                                ("message", JStr("Parse error: " + message))]))])),
             None)
  }

  /** The extra headers of a 200 POST answer: the session field when the session is set. */
  function SessionExtra(session: Option<string>): (extra: Option<seq<(string, string)>>)
    ensures extra.Some? && |extra.value| <= 1
    ensures |extra.value| == 1 <==> Truthy(session)
  {
    Some(if Truthy(session) then [(SessionHeader, session.value)] else [])
  }

  function Responses(answers: seq<RpcResponse>): (items: seq<Json>)
    ensures |items| == |answers|
  {
    seq(|answers|, i requires 0 <= i < |answers| => answers[i].ToJson())
  }

  /** The blank line between head and body, as the POST handler looks for it in the decoded text. */
  const BlankLine: string := "\r\n\r\n"

  /** What the POST handler answers for the decoded request `text`, and the session slot afterwards.
      Request `i` of a batch (a single request is request 0) would mint `tokens(i)`. */
  function PostOutcome(ctx: Context, session: Option<string>, text: string, tokens: nat -> string)
    : (outcome: (Option<Response>, Option<string>))
    ensures outcome.0.None? <==> !Contains(text, BlankLine)
    ensures outcome.0.Some? ==> outcome.0.value.contentType == "application/json"
    ensures outcome.0.Some? && outcome.0.value.status == "200 OK" ==> outcome.0.value.extra == SessionExtra(outcome.1)
    ensures outcome.0.Some? && outcome.0.value.status != "200 OK" ==> outcome.0.value.extra.None?
  {
    match Find(text, BlankLine)
    case None => (None, session)
    case Some(p) =>
      match ctx.rt.loads(text[p + 4..])
      case Failure(message) => (Some(BadRequest(ctx.rt, message)), session)
      case Success(JArr(reqs)) =>
        var b := Batch(ctx, reqs, tokens, session);
        if b.fault.Some? then (Some(BadRequest(ctx.rt, ctx.rt.explain(b.fault.value))), b.session)
        else
          (Some(Response("200 OK", "application/json", ctx.rt.dumps(JArr(Responses(b.answers))),
                         SessionExtra(b.session))),
           b.session)
      case Success(request) =>
        var after := SessionAfter(request, session, tokens(0));
        match Dispatch(ctx, request, tokens(0))
        case Escaped(f) => (Some(BadRequest(ctx.rt, ctx.rt.explain(f))), after)
        case Notified => (Some(Response("204 No Content", "application/json", "", None)), after)
        case Answer(r) =>
          (Some(Response("200 OK", "application/json", ctx.rt.dumps(r.ToJson()), SessionExtra(after))), after)
  }

  /** `<li><strong>name</strong>: description</li>` */
  function ListItem(name: string, description: string): (item: string)
    ensures item != ""
  {
    "<li><strong>" + name + "</strong>: " + description + "</li>"
  }

  /** The list items of the info page, one per `(name, description)` row, in order. */
  function Items(rows: seq<(string, string)>): (html: string)
    ensures html == "" <==> rows == []
  {
    if rows == [] then ""
    else Items(rows[..|rows| - 1]) + ListItem(rows[|rows| - 1].0, rows[|rows| - 1].1)
  }

  function ToolRows(tools: Dict<string, ToolEntry>): (rows: seq<(string, string)>)
    ensures |rows| == |tools.entries|
  {
    seq(|tools.entries|, i requires 0 <= i < |tools.entries| => (tools.entries[i].0, tools.entries[i].1.description))
  }

  function ResourceRows(resources: Dict<string, ResourceEntry>): (rows: seq<(string, string)>)
    ensures |rows| == |resources.entries|
  {
    seq(|resources.entries|, i requires 0 <= i < |resources.entries| =>
          (resources.entries[i].0, resources.entries[i].1.description))
  }

  /** A counted section of the info page: a list, or a note that nothing is registered. */
  function Section(title: string, count: nat, items: string, none: string): string {
    "<h2>" + title + " (" + Decimal(count) + ")</h2>"
    + if items != "" then "<ul>" + items + "</ul>" else "<p><em>" + none + "</em></p>"
  }

  const Doctype: string := "<!DOCTYPE html>"

  /** A text made of six pieces starts with the first piece's start and ends with the last one. */
  lemma Bracketed<T>(a: seq<T>, b: seq<T>, c: seq<T>, d: seq<T>, e: seq<T>, f: seq<T>, n: nat)
    requires n <= |a|
    ensures var s := a + b + c + d + e + f;
      |s| >= n && s[..n] == a[..n] && |s| >= |f| && s[|s| - |f|..] == f
  {
  }

  /** The fixed top of the info page. */
  function Preamble(info: ServerInfo): (top: string)
    ensures |top| >= |Doctype| && top[..|Doctype|] == Doctype
  {
    Doctype + "<html>" + "<head><title>" + info.name + "</title></head>" + "<body>"
    + "<h1>MCP Server: " + info.name + "</h1>" + "<p>Version: " + info.version + "</p>"
    + "<p>Protocol: " + info.protocolVersion + "</p>" + "<p>MCP Endpoint: <code>POST /mcp</code></p>"
  }

  /** The session line of the info page, shown only while a session is set. */
  function SessionNote(session: Option<string>): string {
    if Truthy(session) then "<p>Session ID: <code>" + session.value + "</code></p>" else ""
  }

  /** The HTML page served at `GET /`. */
  function Page(info: ServerInfo, session: Option<string>, tools: Dict<string, ToolEntry>,
                resources: Dict<string, ResourceEntry>): (page: string)
    ensures |page| >= |Doctype| && page[..|Doctype|] == Doctype
    ensures |page| >= |"</html>"| && page[|page| - |"</html>"|..] == "</html>"
  {
    Bracketed(Preamble(info), SessionNote(session),
              Section("Tools", |tools.entries|, Items(ToolRows(tools)), "No tools registered"),
              Section("Resources", |resources.entries|, Items(ResourceRows(resources)), "No resources registered"),
              "</body>", "</html>", |Doctype|);
    Preamble(info) + SessionNote(session)
    + Section("Tools", |tools.entries|, Items(ToolRows(tools)), "No tools registered")
    + Section("Resources", |resources.entries|, Items(ResourceRows(resources)), "No resources registered")
    + "</body>" + "</html>"
  }

  const NotImplemented: string := "GET/SSE streaming not implemented on Pico"
  const NoSession: string := "{\"error\":\"Session not found\"}"

  /** The routing of `_handle_request` once the request line is read: what is sent, and the
      session slot afterwards. `sessionField` is `headers.get('mcp-session-id')`. */
  function RouteOutcome(ctx: Context, session: Option<string>, verb: string, path: string,
                        sessionField: Option<string>, text: string, tokens: nat -> string)
    : (outcome: (Option<Response>, Option<string>))
    ensures outcome.0.None? <==> verb == "POST" && path == "/mcp" && !Contains(text, BlankLine)
    ensures outcome.0.Some? ==> outcome.0.value.status != "500 Internal Server Error"
    ensures outcome.1 != session ==> path == "/mcp" && ((verb == "DELETE" && outcome.1 == None) || verb == "POST")
  {
    if verb == "OPTIONS" then (Some(Response("204 No Content", "text/plain", "", None)), session)
    else if verb == "DELETE" && path == "/mcp" then
      if sessionField == session then (Some(Response("200 OK", "application/json", "{}", None)), None)
      else (Some(Response("404 Not Found", "application/json", NoSession, None)), session)
    else if verb == "POST" && path == "/mcp" then PostOutcome(ctx, session, text, tokens)
    else if verb == "GET" && path == "/mcp" then
      (Some(Response("501 Not Implemented", "application/json", ctx.rt.dumps(ErrorObject(NotImplemented)), None)),
       session)
    else if verb == "GET" && path == "/" then
      (Some(Response("200 OK", "text/html", Page(ctx.info, session, ctx.tools, ctx.resources), None)), session)
    else (Some(Response("404 Not Found", "text/plain", "Not Found", None)), session)
  }

  /** The 500 answer when the request bytes are not valid UTF-8. */
  function ServerError(rt: Runtime, message: string): Response {
    Response("500 Internal Server Error", "application/json", rt.dumps(ErrorObject(message)), None)
  }

  /** What `_handle_request` answers for the request bytes `raw`, if anything, and the session
      slot afterwards. */
  function Outcome(ctx: Context, session: Option<string>, raw: seq<byte>, tokens: nat -> string)
    : (outcome: (Option<Response>, Option<string>))
    ensures outcome.0.Some? && outcome.0.value.status == "500 Internal Server Error" <==> ctx.rt.decode(raw).Failure?
    ensures outcome.0.None? <==>
      && ctx.rt.decode(raw).Success?
      && var text := ctx.rt.decode(raw).value;
         var words := Words(Split(text, CRLF)[0]);
         |words| < 2 || (words[0] == "POST" && words[1] == "/mcp" && !Contains(text, BlankLine))
  {
    match ctx.rt.decode(raw)
    case Failure(message) => (Some(ServerError(ctx.rt, message)), session)
    case Success(text) =>
      var lines := Split(text, CRLF);
      var words := Words(lines[0]);
      if |words| < 2 then (None, session)
      else RouteOutcome(ctx, session, words[0], words[1], FieldValue(lines[1..], "mcp-session-id"), text, tokens)
  }

  /** The bytes `_handle_request` sends back, and the session slot afterwards. */
  function Exchange(ctx: Context, session: Option<string>, raw: seq<byte>, tokens: nat -> string)
    : (exchange: (Option<seq<byte>>, Option<string>))
    ensures var r := Outcome(ctx, session, raw, tokens).0;
      exchange.0.Some? ==>
        && r.Some?
        && var w, body := exchange.0.value, r.value.body;
           Contains(w, Terminator) && |w| >= |Utf8(body)| && w[|w| - |Utf8(body)|..] == Utf8(body)
  {
    var outcome := Outcome(ctx, session, raw, tokens);
    (if outcome.0.Some? then Some(Send(outcome.0.value, outcome.1)) else None, outcome.1)
  }

  // ---------------------------------------------------------------------------
  // Properties of one exchange

  /** Every status line and content type the server answers with. */
  const Statuses: set<string> :=
    {"200 OK", "204 No Content", "400 Bad Request", "404 Not Found", "500 Internal Server Error",
     "501 Not Implemented"}
  const ContentTypes: set<string> := {"text/plain", "application/json", "text/html"}

  /** None of them holds a carriage return. */
  lemma PlainLiterals()
    ensures forall status :: status in Statuses ==> '\r' !in status
    ensures forall contentType :: contentType in ContentTypes ==> '\r' !in contentType
  {
  }

  /** The POST handler leaves the session as it was or sets it to a token some request minted. */
  lemma PostSessionSource(ctx: Context, session: Option<string>, text: string, tokens: nat -> string)
    ensures var after := PostOutcome(ctx, session, text, tokens).1;
      after == session || exists i: nat :: after == Some(tokens(i))
  {
    var found := Find(text, BlankLine);
    if found.Some? {
      var parsed := ctx.rt.loads(text[found.value + 4..]);
      if parsed.Success? && parsed.value.JArr? {
        BatchSessionSource(ctx, parsed.value.items, tokens, session);
      } else if parsed.Success? && StartsSession(parsed.value) {
        assert PostOutcome(ctx, session, text, tokens).1 == Some(tokens(0));
      }
    }
  }

  /** What any exchange can answer with: a known status and content type, and either no extra
      headers or exactly the session field of the session as it stands afterwards. The session
      changes only to nothing, by a `DELETE /mcp`, or to a minted token, by a `POST /mcp`. */
  lemma {:induction false} OutcomeForms(ctx: Context, session: Option<string>, raw: seq<byte>, tokens: nat -> string)
    ensures var outcome := Outcome(ctx, session, raw, tokens);
      var r, after := outcome.0, outcome.1;
      && (r.Some? ==> r.value.status in Statuses && r.value.contentType in ContentTypes)
      && (r.Some? ==> r.value.extra.None? || r.value.extra == SessionExtra(after))
      && (after == session || after == None || exists i: nat :: after == Some(tokens(i)))
      && (after != session ==>
            ctx.rt.decode(raw).Success? &&
            var words := Words(Split(ctx.rt.decode(raw).value, CRLF)[0]);
            |words| >= 2 && words[1] == "/mcp" &&
            ((words[0] == "DELETE" && after == None) || (words[0] == "POST" && after.Some?)))
  {
    if ctx.rt.decode(raw).Success? {
      var text := ctx.rt.decode(raw).value;
      PostSessionSource(ctx, session, text, tokens);
    }
  }

  /** The head of a response whose extra headers are none or the session field carries the
      session field exactly when the session is set, right before `Content-Length`. */
  lemma SessionFieldOnEveryResponse(r: Response, after: Option<string>, length: nat)
    requires r.extra.None? || r.extra == SessionExtra(after)
    ensures HeadLines(r.status, r.contentType, after, r.extra, length) ==
      ["HTTP/1.1 " + r.status, "Content-Type: " + r.contentType, AllowOrigin, AllowMethods, AllowHeaders]
      + (if Truthy(after) then [SessionHeader + ": " + after.value] else [])
      + ["Content-Length: " + Decimal(length)]
  {
  }

  /** Every response the server sends has a complete head, the encoded body right behind it, and
      a head that declares the body's number of characters: exactly the number of bytes behind
      the head when the body is ASCII, and fewer otherwise. This holds provided no session token
      holds a carriage return and the decoder gives back any encoded text. */
  lemma {:induction false} EveryResponseFramed(ctx: Context, session: Option<string>, raw: seq<byte>,
                                               tokens: nat -> string)
    requires session.Some? ==> '\r' !in session.value
    requires forall i: nat :: '\r' !in tokens(i)
    requires forall t: string :: ctx.rt.decode(Utf8(t)) == Success(t)
    ensures var outcome := Outcome(ctx, session, raw, tokens);
      var sent := Exchange(ctx, session, raw, tokens).0;
      sent.Some? ==> CharactersDeclared(ctx.rt, sent.value, outcome.0.value.body)
  {
    var outcome := Outcome(ctx, session, raw, tokens);
    var r, after := outcome.0, outcome.1;
    if r.Some? {
      var resp := r.value;
      assert HeadInputsSafe(resp.status, resp.contentType, after, resp.extra) by {
        OutcomeForms(ctx, session, raw, tokens);
        PlainLiterals();
        assert after.Some? ==> '\r' !in after.value;
      }
      SendFramed(ctx.rt, resp, after);
    }
  }

  /** One response sent with a head free of carriage returns declares its body's characters,
      which match the bytes behind the head exactly when the body is ASCII. */
  lemma SendFramed(rt: Runtime, r: Response, session: Option<string>)
    requires HeadInputsSafe(r.status, r.contentType, session, r.extra)
    requires forall t: string :: rt.decode(Utf8(t)) == Success(t)
    ensures CharactersDeclared(rt, Send(r, session), r.body)
  {
    var text := Join(HeadLines(r.status, r.contentType, session, r.extra, |r.body|), CRLF);
    assert rt.decode(Utf8(text)) == Success(text);
    WireAsWrittenMiscounts(rt, r.status, r.contentType, session, r.extra, r.body);
  }

  /** A POST body that parses to a list of dicts is answered 200 with the dispatcher's responses
      to its requests in input order, one per request except the `initialized` notifications; the session becomes the token of the last
      `initialize`, and the answer names that session exactly when it is set. */
  lemma BatchAnswered(ctx: Context, session: Option<string>, text: string, tokens: nat -> string,
                      p: nat, reqs: seq<Json>)
    requires Find(text, BlankLine) == Some(p) && ctx.rt.loads(text[p + 4..]) == Success(JArr(reqs))
    requires forall i :: 0 <= i < |reqs| ==> reqs[i].JObj?
    ensures var outcome := PostOutcome(ctx, session, text, tokens);
      var b := Batch(ctx, reqs, tokens, session);
      var after := match LastStart(reqs) case Some(i) => Some(tokens(i)) case None => session;
      && outcome.1 == after
      && outcome.0 == Some(Response("200 OK", "application/json",
                                    ctx.rt.dumps(JArr(Responses(Kept(Replies(ctx, reqs, tokens))))),
                                    SessionExtra(after)))
      && |b.answers| == |reqs| - Notifications(reqs)
  {
    var b := Batch(ctx, reqs, tokens, session);
    var after := match LastStart(reqs) case Some(i) => Some(tokens(i)) case None => session;
    assert b.fault.None? && b.session == after && |b.answers| == |reqs| - Notifications(reqs) by {
      BatchOfObjects(ctx, reqs, tokens, session);
    }
    assert b.answers == Kept(Replies(ctx, reqs, tokens)) by {
      BatchKeepsReplies(ctx, reqs, tokens, session);
    }
  }

  /** A POST body that parses to a single dict the dispatcher answers is answered 200 with the JSON
      text of that response; the session is the one the request leaves, and the answer names it
      exactly when it is set. */
  lemma SingleAnswered(ctx: Context, session: Option<string>, text: string, tokens: nat -> string,
                       p: nat, request: Json, r: RpcResponse)
    requires Find(text, BlankLine) == Some(p) && ctx.rt.loads(text[p + 4..]) == Success(request)
    requires request.JObj? && Dispatch(ctx, request, tokens(0)) == Answer(r)
    ensures var after := SessionAfter(request, session, tokens(0));
      PostOutcome(ctx, session, text, tokens) ==
        (Some(Response("200 OK", "application/json", ctx.rt.dumps(r.ToJson()), SessionExtra(after))), after)
  {
  }

  /** A list with an element that is not a dict is answered 400 naming the first such element;
      the requests before it have run, so an `initialize` among them has already replaced the
      session. */
  lemma BatchRejected(ctx: Context, session: Option<string>, text: string, tokens: nat -> string,
                      p: nat, reqs: seq<Json>, k: nat)
    requires Find(text, BlankLine) == Some(p) && ctx.rt.loads(text[p + 4..]) == Success(JArr(reqs))
    requires k < |reqs| && !reqs[k].JObj? && forall i :: 0 <= i < k ==> reqs[i].JObj?
    ensures var outcome := PostOutcome(ctx, session, text, tokens);
      && outcome.0 == Some(BadRequest(ctx.rt, ctx.rt.explain(NoGetMethod(reqs[k]))))
      && outcome.1 == match LastStart(reqs[..k]) case Some(i) => Some(tokens(i)) case None => session
  {
    BatchEscapesAt(ctx, reqs, k, tokens, session);
  }

  /** The status of a POST answer, by what the body after the blank line parses to: none without
      a blank line; 204 exactly for a single `initialized` notification; 400 exactly when parsing
      fails, a list holds something that is not a dict, or a single request is neither a list nor
      a dict; 200 otherwise. */
  lemma {:induction false} PostStatus(ctx: Context, session: Option<string>, text: string, tokens: nat -> string)
    ensures var r := PostOutcome(ctx, session, text, tokens).0;
      && (r.None? <==> !Contains(text, BlankLine))
      && (r.Some? ==>
            var parsed := ctx.rt.loads(text[Find(text, BlankLine).value + 4..]);
            && r.value.status in {"200 OK", "204 No Content", "400 Bad Request"}
            && (r.value.status == "204 No Content" <==>
                  parsed.Success? && parsed.value.JObj? && Field(parsed.value, "method", JNull) == JStr("initialized"))
            && (r.value.status == "400 Bad Request" <==>
                  || parsed.Failure?
                  || (parsed.value.JArr? && exists i :: 0 <= i < |parsed.value.items| && !parsed.value.items[i].JObj?)
                  || (!parsed.value.JArr? && !parsed.value.JObj?)))
  {
    var found := Find(text, BlankLine);
    if found.Some? {
      var parsed := ctx.rt.loads(text[found.value + 4..]);
      if parsed.Success? {
        if parsed.value.JArr? {
          BatchFaultIff(ctx, parsed.value.items, tokens, session);
        }
      }
    }
  }

  /** A `DELETE /mcp` naming the session ends it; the same request again finds no session. */
  lemma DeleteOnce(ctx: Context, s: string, text: string, tokens: nat -> string)
    ensures var first := RouteOutcome(ctx, Some(s), "DELETE", "/mcp", Some(s), text, tokens);
      var second := RouteOutcome(ctx, first.1, "DELETE", "/mcp", Some(s), text, tokens);
      && first.0 == Some(Response("200 OK", "application/json", "{}", None)) && first.1 == None
      && second.0 == Some(Response("404 Not Found", "application/json", NoSession, None)) && second.1 == None
  {
  }

  /** `DELETE /mcp` ends the session with 200 `{}` exactly when the `mcp-session-id` field equals
      the session (a missing field matching a missing session); otherwise it answers 404 and the
      session stays. */
  lemma DeleteMatches(ctx: Context, session: Option<string>, sessionField: Option<string>, text: string,
                      tokens: nat -> string)
    ensures var outcome := RouteOutcome(ctx, session, "DELETE", "/mcp", sessionField, text, tokens);
      && (sessionField == session ==> outcome == (Some(Response("200 OK", "application/json", "{}", None)), None))
      && (sessionField != session ==>
            outcome == (Some(Response("404 Not Found", "application/json", NoSession, None)), session))
  {
  }

  /** A request whose first line has fewer than two words is answered with nothing, and the
      session stays. */
  lemma ShortRequestLine(ctx: Context, session: Option<string>, raw: seq<byte>, tokens: nat -> string)
    requires ctx.rt.decode(raw).Success?
    requires |Words(Split(ctx.rt.decode(raw).value, CRLF)[0])| < 2
    ensures Exchange(ctx, session, raw, tokens) == (None, session)
  {
  }

  /** A request line `METHOD SP PATH SP VERSION` is routed by its method and path, with the
      `mcp-session-id` field of the lines after it. */
  lemma RequestLineRouted(ctx: Context, session: Option<string>, raw: seq<byte>, tokens: nat -> string,
                          verb: string, path: string, version: string)
    requires ctx.rt.decode(raw).Success?
    requires Split(ctx.rt.decode(raw).value, CRLF)[0] == verb + " " + path + " " + version
    requires verb != [] && NoSpace(verb) && path != [] && NoSpace(path)
    ensures var text := ctx.rt.decode(raw).value;
      Outcome(ctx, session, raw, tokens) ==
        RouteOutcome(ctx, session, verb, path, FieldValue(Split(text, CRLF)[1..], "mcp-session-id"), text, tokens)
  {
    RequestLineTokens(verb, path, version);
  }

  /** One more row adds its own list item behind the items before it. */
  lemma ItemsSnoc(pre: seq<(string, string)>, x: (string, string))
    ensures Items(pre + [x]) == Items(pre) + ListItem(x.0, x.1)
  {
    assert (pre + [x])[..|pre|] == pre;
  }

  /** Joining the rows of two lists of items gives the items of one after the other. */
  lemma {:induction false} ItemsConcat(a: seq<(string, string)>, b: seq<(string, string)>)
    ensures Items(a + b) == Items(a) + Items(b)
  {
    if b == [] {
      assert a + b == a;
    } else {
      var n := |b| - 1;
      var front, x := b[..n], b[n];
      assert b == front + [x];
      assert a + b == (a + front) + [x];
      ItemsConcat(a, front);
      ItemsSnoc(a + front, x);
      ItemsSnoc(front, x);
      var i, f, l := Items(a), Items(front), ListItem(x.0, x.1);
      assert (i + f) + l == i + (f + l);
    }
  }

  /** A sequence is its part before `i`, its element at `i` and its part after `i`. */
  lemma Around<T>(s: seq<T>, i: nat)
    requires i < |s|
    ensures s == (s[..i] + [s[i]]) + s[i + 1..]
  {
  }

  /** A sequence is its prefix followed by the rest. */
  lemma TakeDrop<T>(s: seq<T>, i: nat)
    requires i <= |s|
    ensures s[..i] + s[i..] == s
  {
  }

  /** A prefix one longer is the prefix and the next element. */
  lemma TakeOneMore<T>(s: seq<T>, i: nat)
    requires i < |s|
    ensures s[..i + 1] == s[..i] + [s[i]]
  {
  }

  /** Each row appears as its own list item, between the items of the rows before and after it. */
  lemma ItemsAt(rows: seq<(string, string)>, i: nat)
    requires i < |rows|
    ensures Items(rows) == Items(rows[..i]) + ListItem(rows[i].0, rows[i].1) + Items(rows[i + 1..])
  {
    var pre, x, post := rows[..i], rows[i], rows[i + 1..];
    Around(rows, i);
    ItemsConcat(pre + [x], post);
    ItemsSnoc(pre, x);
  }

  /** The info page lists the tools in the registry's order, each with its description. */
  lemma PageListsTools(tools: Dict<string, ToolEntry>, i: nat)
    requires i < |tools.entries|
    ensures var rows := ToolRows(tools);
      Items(rows) == Items(rows[..i]) + ListItem(tools.Keys()[i], tools.Values()[i].description) + Items(rows[i + 1..])
  {
    ItemsAt(ToolRows(tools), i);
  }

  class McpServer {
    const info: ServerInfo
    const rt: Runtime
    var tools: Dict<string, ToolEntry>
    var resources: Dict<string, ResourceEntry>
    var session: Option<string>

    /** The registrations so far, in call order. */
    ghost var toolLog: seq<(string, ToolEntry)>
    ghost var resourceLog: seq<(string, ResourceEntry)>

    /** The registries are what the logged registrations build. */
    ghost predicate Valid()
      reads this`tools, this`toolLog, this`resources, this`resourceLog
    {
      tools == PutAll(toolLog) && resources == PutAll(resourceLog)
    }

    /** What the dispatcher reads of the server. */
    function Ctx(): Context
      reads this`tools, this`resources
    {
      Context(info, tools, resources, rt)
    }

    constructor (name: string, version: string, protocolVersion: string, rt: Runtime)
      ensures info == ServerInfo(name, version, protocolVersion) && this.rt == rt
      ensures tools == Dict([]) && resources == Dict([]) && session == None
      ensures toolLog == [] && resourceLog == [] && Valid()
    {
      info := ServerInfo(name, version, protocolVersion);
      this.rt := rt;
      tools := Dict([]);
      resources := Dict([]);
      session := None;
      toolLog := [];
      resourceLog := [];
    }

    /** `MCPServer()` with every keyword argument left at its default. */
    constructor WithDefaults(rt: Runtime)
      ensures info == ServerInfo(DefaultName, DefaultVersion, DefaultProtocolVersion) && this.rt == rt
      ensures tools == Dict([]) && resources == Dict([]) && session == None
      ensures toolLog == [] && resourceLog == [] && Valid()
    {
      info := ServerInfo(DefaultName, DefaultVersion, DefaultProtocolVersion);
      this.rt := rt;
      tools := Dict([]);
      resources := Dict([]);
      session := None;
      toolLog := [];
      resourceLog := [];
    }

    /** `register_tool`: `_tools[name]` becomes the new entry, in place if the name was taken. */
    method RegisterTool(name: string, description: string, inputSchema: Json, handler: ToolHandler)
      requires Valid()
      modifies this`tools, this`toolLog
      ensures Valid()
      ensures tools == old(tools).Put(name, ToolEntry(name, description, inputSchema, handler))
      ensures toolLog == old(toolLog) + [(name, ToolEntry(name, description, inputSchema, handler))]
    {
      var entry := ToolEntry(name, description, inputSchema, handler);
      ghost var log := toolLog + [(name, entry)];
      var updated := tools.Put(name, entry);
      assert PutAll(log) == updated by { PutAllSnoc(toolLog, name, entry); }
      tools := updated;
      toolLog := log;
    }

    /** `tool(name, description, input_schema)` applied to `handler`: registers it as
        `register_tool` does and gives the handler back unchanged. */
    method Tool(name: string, description: string, inputSchema: Json, handler: ToolHandler)
      returns (f: ToolHandler)
      requires Valid()
      modifies this`tools, this`toolLog
      ensures Valid() && f == handler
      ensures tools == old(tools).Put(name, ToolEntry(name, description, inputSchema, handler))
      ensures toolLog == old(toolLog) + [(name, ToolEntry(name, description, inputSchema, handler))]
    {
      RegisterTool(name, description, inputSchema, handler);
      f := handler;
    }

    /** `resource(uri, name, description, mime_type)` applied to `handler`. */
    method Resource(uri: string, name: string, description: string, mimeType: string, handler: ResourceHandler)
      returns (f: ResourceHandler)
      requires Valid()
      modifies this`resources, this`resourceLog
      ensures Valid() && f == handler
      ensures resources == old(resources).Put(uri, ResourceEntry(uri, name, description, mimeType, handler))
      ensures resourceLog == old(resourceLog) + [(uri, ResourceEntry(uri, name, description, mimeType, handler))]
    {
      var entry := ResourceEntry(uri, name, description, mimeType, handler);
      ghost var log := resourceLog + [(uri, entry)];
      var updated := resources.Put(uri, entry);
      assert PutAll(log) == updated by { PutAllSnoc(resourceLog, uri, entry); }
      f := handler;
      resources, resourceLog := updated, log;
      assert tools == PutAll(toolLog) && resources == PutAll(resourceLog);
    }

    /** `resource(uri, name, description)` with `mime_type` left at its default. */
    method PlainResource(uri: string, name: string, description: string, handler: ResourceHandler)
      returns (f: ResourceHandler)
      requires Valid()
      modifies this`resources, this`resourceLog
      ensures Valid() && f == handler
      ensures resources == old(resources).Put(uri, ResourceEntry(uri, name, description, DefaultMimeType, handler))
      ensures resourceLog == old(resourceLog) + [(uri, ResourceEntry(uri, name, description, DefaultMimeType, handler))]
    {
      f := Resource(uri, name, description, DefaultMimeType, handler);
    }

    /** `_handle_jsonrpc(request)`; `token` is the session id `initialize` mints. */
    method HandleJsonRpc(request: Json, token: string) returns (reply: Reply)
      modifies this`session
      ensures reply == Dispatch(Ctx(), request, token)
      ensures session == SessionAfter(request, old(session), token)
    {
      reply := Dispatch(Ctx(), request, token);
      if StartsSession(request) {
        session := Some(token);
      }
    }

    /** The batch loop of the POST handler: each request in turn, keeping every response that is
        not `None`, until a request raises. */
    method HandleBatch(reqs: seq<Json>, tokens: nat -> string) returns (answers: seq<RpcResponse>, fault: Option<Fault>)
      modifies this`session
      ensures Batch(Ctx(), reqs, tokens, old(session)) == BatchState(answers, fault, session)
    {
      ghost var ctx, before := Ctx(), session;
      answers, fault := [], None;
      for i := 0 to |reqs|
        invariant Ctx() == ctx
        invariant Batch(ctx, reqs[..i], tokens, before) == BatchState(answers, None, session)
      {
        assert reqs[..i + 1][..i] == reqs[..i];
        var reply := HandleJsonRpc(reqs[i], tokens(i));
        match reply {
          case Notified =>
          case Answer(r) =>
            answers := answers + [r];
          case Escaped(f) =>
            fault := Some(f);
            assert Batch(ctx, reqs, tokens, before) == Batch(ctx, reqs[..i + 1], tokens, before) by {
              BatchStopsAtEscape(ctx, reqs[..i + 1], reqs[i + 1..], tokens, before);
              TakeDrop(reqs, i + 1);
            }
            return;
        }
      }
      assert reqs[..|reqs|] == reqs;
    }

    /** The POST `/mcp` branch of `_handle_request`, for the decoded request `text`. */
    method HandlePost(text: string, tokens: nat -> string) returns (response: Option<Response>)
      modifies this`session
      ensures (response, session) == PostOutcome(Ctx(), old(session), text, tokens)
    {
      var bodyStart := Find(text, BlankLine);
      if bodyStart.None? {
        return None;
      }
      var body := text[bodyStart.value + 4..];
      var parsed := rt.loads(body);
      if parsed.Failure? {
        return Some(BadRequest(rt, parsed.error));
      }
      var responseBody: string;
      match parsed.value {
        case JArr(reqs) =>
          var answers, fault := HandleBatch(reqs, tokens);
          if fault.Some? {
            return Some(BadRequest(rt, rt.explain(fault.value)));
          }
          responseBody := rt.dumps(JArr(Responses(answers)));
        case _ =>
          var reply := HandleJsonRpc(parsed.value, tokens(0));
          match reply {
            case Escaped(f) =>
              return Some(BadRequest(rt, rt.explain(f)));
            case Notified =>
              return Some(Response("204 No Content", "application/json", "", None));
            case Answer(r) =>
              responseBody := rt.dumps(r.ToJson());
          }
      }
      var extra: seq<(string, string)> := [];
      if Truthy(session) {
        extra := [(SessionHeader, session.value)];
      }
      response := Some(Response("200 OK", "application/json", responseBody, Some(extra)));
    }

    /** The loop over `_tools.keys()` of the `GET /` branch, looking each description up by name. */
    method ToolItems() returns (html: string)
      requires Valid()
      ensures html == Items(ToolRows(tools))
    {
      PutAllKeys(toolLog);
      html := "";
      var names := tools.Keys();
      ghost var rows := ToolRows(tools);
      for i := 0 to |names|
        invariant html == Items(rows[..i])
      {
        GetAt(tools, i);
        var description := tools.Get(names[i]).value.description;
        assert rows[i] == (names[i], description);
        TakeOneMore(rows, i);
        ItemsSnoc(rows[..i], (names[i], description));
        html := html + ListItem(names[i], description);
      }
      assert rows[..|names|] == rows;
    }

    /** The loop over `_resources.keys()` of the `GET /` branch. */
    method ResourceItems() returns (html: string)
      requires Valid()
      ensures html == Items(ResourceRows(resources))
    {
      PutAllKeys(resourceLog);
      html := "";
      var uris := resources.Keys();
      ghost var rows := ResourceRows(resources);
      for i := 0 to |uris|
        invariant html == Items(rows[..i])
      {
        GetAt(resources, i);
        var description := resources.Get(uris[i]).value.description;
        assert rows[i] == (uris[i], description);
        TakeOneMore(rows, i);
        ItemsSnoc(rows[..i], (uris[i], description));
        html := html + ListItem(uris[i], description);
      }
      assert rows[..|uris|] == rows;
    }

    /** The page of the `GET /` branch. */
    method InfoPage() returns (html: string)
      requires Valid()
      ensures html == Page(info, session, tools, resources)
    {
      var toolsHtml := ToolItems();
      var resourcesHtml := ResourceItems();
      html := Preamble(info);
      if Truthy(session) {
        html := html + ("<p>Session ID: <code>" + session.value + "</code></p>");
      } else {
        assert html + SessionNote(session) == html;
      }
      assert html == Preamble(info) + SessionNote(session);
      html := html + Section("Tools", |tools.entries|, toolsHtml, "No tools registered");
      html := html + Section("Resources", |resources.entries|, resourcesHtml, "No resources registered");
      html := html + "</body>";
      html := html + "</html>";
    }

    /** `_send_http_response`: the head is built line by line, the extra headers with a loop, and
        `Content-Length` is `len(body)`, the number of characters; then the encoded body. */
    method SendHttpResponse(status: string, contentType: string, body: string, extra: Option<seq<(string, string)>>)
      returns (bytes: seq<byte>)
      ensures bytes == WireAsWritten(status, contentType, session, extra, body)
    {
      ghost var lines: seq<string> := [];
      var response := "";
      var line := "HTTP/1.1 " + status;
      LinesSnoc(lines, line);
      lines, response := lines + [line], response + (line + CRLF);
      line := "Content-Type: " + contentType;
      LinesSnoc(lines, line);
      lines, response := lines + [line], response + (line + CRLF);
      LinesSnoc(lines, AllowOrigin);
      lines, response := lines + [AllowOrigin], response + (AllowOrigin + CRLF);
      LinesSnoc(lines, AllowMethods);
      lines, response := lines + [AllowMethods], response + (AllowMethods + CRLF);
      LinesSnoc(lines, AllowHeaders);
      lines, response := lines + [AllowHeaders], response + (AllowHeaders + CRLF);
      ghost var fixed := lines;
      assert fixed == FixedLines(status, contentType);
      if Truthy(session) && extra.None? {
        line := SessionHeader + ": " + session.value;
        LinesSnoc(lines, line);
        lines, response := lines + [line], response + (line + CRLF);
      }
      assert lines == fixed + SessionLines(session, extra);
      ghost var fieldLines: seq<string> := [];
      if extra.Some? {
        var fields := extra.value;
        for i := 0 to |fields|
          invariant fieldLines == FieldLines(fields[..i])
          invariant response == Lines(lines + fieldLines)
        {
          line := fields[i].0 + ": " + fields[i].1;
          assert FieldLines(fields[..i + 1]) == FieldLines(fields[..i]) + [line];
          LinesSnoc(lines + fieldLines, line);
          assert lines + fieldLines + [line] == lines + (fieldLines + [line]);
          fieldLines := fieldLines + [line];
          response := response + (line + CRLF);
        }
        assert fields[..|fields|] == fields;
      } else {
        assert lines + fieldLines == lines;
      }
      assert fieldLines == if extra.Some? then FieldLines(extra.value) else [];
      ConcatAssoc(fixed, SessionLines(session, extra), fieldLines);
      lines := lines + fieldLines;
      assert lines == FixedLines(status, contentType) + ExtraLines(session, extra);
      assert response == Lines(lines);
      line := "Content-Length: " + Decimal(|body|);
      LinesSnoc(lines, line);
      lines, response := lines + [line], response + (line + CRLF);
      assert lines == HeadLines(status, contentType, session, extra, |body|);
      response := response + CRLF;
      HeadText(lines, response);
      bytes := Utf8(response) + Utf8(body);
    }

    /** The branches of `_handle_request` after the request line and the header fields are read. */
    method Route(verb: string, path: string, headers: map<string, string>, text: string, tokens: nat -> string)
      returns (response: Option<Response>)
      requires Valid()
      modifies this`session
      ensures Valid()
      ensures var sessionField := if "mcp-session-id" in headers then Some(headers["mcp-session-id"]) else None;
        (response, session) == RouteOutcome(Ctx(), old(session), verb, path, sessionField, text, tokens)
    {
      if verb == "OPTIONS" {
        response := Some(Response("204 No Content", "text/plain", "", None));
      } else if verb == "DELETE" && path == "/mcp" {
        var sessionField := if "mcp-session-id" in headers then Some(headers["mcp-session-id"]) else None;
        if sessionField == session {
          session := None;
          response := Some(Response("200 OK", "application/json", "{}", None));
        } else {
          response := Some(Response("404 Not Found", "application/json", NoSession, None));
        }
      } else if verb == "POST" && path == "/mcp" {
        response := HandlePost(text, tokens);
      } else if verb == "GET" && path == "/mcp" {
        response := Some(Response("501 Not Implemented", "application/json", rt.dumps(ErrorObject(NotImplemented)),
                                  None));
      } else if verb == "GET" && path == "/" {
        var html := InfoPage();
        response := Some(Response("200 OK", "text/html", html, None));
      } else {
        response := Some(Response("404 Not Found", "text/plain", "Not Found", None));
      }
    }

    /** `_handle_request` for the byte stream `incoming`: read the request, decode it, route it,
        and send at most one response. Returns the bytes read, what is left unread, and what was
        sent. */
    method HandleRequest(incoming: seq<seq<byte>>, tokens: nat -> string)
      returns (raw: seq<byte>, rest: seq<seq<byte>>, sent: Option<seq<byte>>)
      requires Valid()
      modifies this`session
      ensures Valid()
      ensures (raw, rest) == Read(rt, incoming)
      ensures raw + Stream(rest) == Stream(incoming) && ReadStops(rt, raw, rest)
      ensures (sent, session) == Exchange(Ctx(), old(session), raw, tokens)
    {
      raw, rest := ReadRequest(rt, incoming);
      sent := Respond(raw, tokens);
    }

    /** The rest of `_handle_request` once the request bytes are read: decode, split off the
        request line, parse the header fields, route, and send. */
    method Respond(raw: seq<byte>, tokens: nat -> string) returns (sent: Option<seq<byte>>)
      requires Valid()
      modifies this`session
      ensures Valid()
      ensures (sent, session) == Exchange(Ctx(), old(session), raw, tokens)
    {
      var decoded := rt.decode(raw);
      if decoded.Failure? {
        var bytes := SendHttpResponse("500 Internal Server Error", "application/json",
                                      rt.dumps(ErrorObject(decoded.error)), None);
        return Some(bytes);
      }
      var text := decoded.value;
      var lines := Split(text, CRLF);
      var requestLine := Words(lines[0]);
      if |requestLine| < 2 {
        return None;
      }
      var verb, path := requestLine[0], requestLine[1];
      var headers := ParseHeaders(lines[1..]);
      ghost var sessionField := FieldValue(lines[1..], "mcp-session-id");
      assert sessionField == if "mcp-session-id" in headers then Some(headers["mcp-session-id"]) else None;
      var response := Route(verb, path, headers, text, tokens);
      assert Outcome(Ctx(), old(session), raw, tokens) == (response, session);
      sent := None;
      if response.Some? {
        var r := response.value;
        var bytes := SendHttpResponse(r.status, r.contentType, r.body, r.extra);
        sent := Some(bytes);
      }
    }
  }
}
