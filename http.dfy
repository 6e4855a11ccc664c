/** The byte-level HTTP/1.1 side of `MCPServer._handle_request` and `_send_http_response`: reading
    a request off the socket, finding the declared body length, splitting the header fields, and
    assembling a response head. */
module Http {
  import opened Wrappers
  import opened Text
  import opened Json

  const CRLF: string := "\r\n"

  /** `b'\r\n\r\n'`, the end of the head. */
  const Terminator: seq<byte> := [13, 10, 13, 10]

  /** The size of every `recv` while the head is read, and the most any `recv` asks for. */
  const RecvSize: nat := 1024

  function Min(a: int, b: int): int {
    if a <= b then a else b
  }

  // ---------------------------------------------------------------------------
  // The socket

  /** What the peer sends, given as the chunks successive `recv` calls hand out; an empty chunk,
      or running out of chunks, is the end of the stream. */
  function Stream(pending: seq<seq<byte>>): seq<byte> {
    if pending == [] || pending[0] == [] then [] else pending[0] + Stream(pending[1..])
  }

  /** `client.recv(max)`: at most `max` bytes, nothing lost, and empty only at the end of the stream. */
  function Recv(pending: seq<seq<byte>>, max: nat): (r: (seq<byte>, seq<seq<byte>>))
    requires max > 0
    ensures |r.0| <= max
    ensures r.0 + Stream(r.1) == Stream(pending)
    ensures r.0 == [] <==> Stream(pending) == []
  {
    if pending == [] || pending[0] == [] then ([], pending)
    else if |pending[0]| <= max then (pending[0], pending[1..])
    else
      var rest := [pending[0][max..]] + pending[1..];
      assert rest[1..] == pending[1..];
      (pending[0][..max], rest)
  }

  // ---------------------------------------------------------------------------
  // The declared body length

  /** `line.lower().startswith('content-length:')` */
  predicate DeclaresLength(line: string) {
    StartsWith(Lower(line), "content-length:")
  }

  function FirstDeclarationFrom(lines: seq<string>, from: nat): (r: Option<nat>)
    ensures r.Some? ==> from <= r.value < |lines| && DeclaresLength(lines[r.value])
    ensures r.Some? ==> forall i :: from <= i < r.value ==> !DeclaresLength(lines[i])
    ensures r.None? ==> forall i :: from <= i < |lines| ==> !DeclaresLength(lines[i])
    decreases |lines| - from
  {
    if from >= |lines| then None
    else if DeclaresLength(lines[from]) then Some(from)
    else FirstDeclarationFrom(lines, from + 1)
  }

  /** The position of the first line that declares a length. */
  function FirstDeclaration(lines: seq<string>): (r: Option<nat>)
    ensures r.Some? ==> r.value < |lines| && DeclaresLength(lines[r.value])
    ensures r.Some? ==> forall i :: 0 <= i < r.value ==> !DeclaresLength(lines[i])
    ensures r.None? ==> forall i :: 0 <= i < |lines| ==> !DeclaresLength(lines[i])
  {
    FirstDeclarationFrom(lines, 0)
  }

  /** A declaring line has a colon at position 14, so splitting it at colons gives a second piece. */
  lemma DeclarationHasColon(line: string)
    requires DeclaresLength(line)
    ensures |Split(line, ":")| >= 2
  {
    assert Lower(line)[14] == "content-length:"[14] == ':';
    assert line[14] == ':';
    assert MatchAt(line, ":", 14);
    SplitsInTwo(line, ":");
  }

  /** `int(line.split(':')[1].strip())`; `None` where `int` raises. */
  function LengthValue(line: string): Option<int>
    requires DeclaresLength(line)
  {
    DeclarationHasColon(line);
    ParseInt(Strip(Split(line, ":")[1]))
  }

  /** The length the head `text` declares: the value of the first declaring line; 0 when there is
      none or when its value does not parse (the `int` error is swallowed and the scan stops). */
  function ContentLength(text: string): int {
    var lines := Split(text, CRLF);
    match FirstDeclaration(lines)
    case None => 0
    case Some(i) => LengthValue(lines[i]).GetOr(0)
  }

  /** The length `_handle_request` reads for the bytes `raw`: 0 until the head is complete, and
      0 when the head is not valid UTF-8. */
  function DeclaredLength(rt: Runtime, raw: seq<byte>): int {
    match Find(raw, Terminator)
    case None => 0
    case Some(p) =>
      match rt.decode(raw[..p])
      case Failure(_) => 0
      case Success(text) => ContentLength(text)
  }

  /** Bytes arriving after the head do not change the declared length. */
  lemma DeclaredLengthStable(rt: Runtime, raw: seq<byte>, more: seq<byte>)
    requires Contains(raw, Terminator)
    ensures Find(raw + more, Terminator) == Find(raw, Terminator)
    ensures DeclaredLength(rt, raw + more) == DeclaredLength(rt, raw)
  {
    FindExtend(raw, more, Terminator);
    var p := Find(raw, Terminator).value;
    assert (raw + more)[..p] == raw[..p];
  }

  /** The scan over the head's lines, stopping at the first declaring line. */
  method ScanContentLength(text: string) returns (n: int)
    ensures n == ContentLength(text)
  {
    n := 0;
    var lines := Split(text, CRLF);
    for i := 0 to |lines|
      invariant forall j :: 0 <= j < i ==> !DeclaresLength(lines[j])
    {
      if DeclaresLength(lines[i]) {
        var value := LengthValue(lines[i]);
        if value.Some? {
          n := value.value;
        }
        assert FirstDeclaration(lines) == Some(i);
        return;
      }
    }
  }

  /** If the head was not complete before the last chunk, at least one of its four bytes came in
      that chunk, so fewer than `|chunk|` bytes of the chunk lie behind it. */
  lemma HeadEndsInLastChunk(before: seq<byte>, chunk: seq<byte>)
    requires !Contains(before, Terminator) && Contains(before + chunk, Terminator)
    ensures |before + chunk| - (Find(before + chunk, Terminator).value + 4) < |chunk|
  {
    var s, v := before + chunk, Find(before + chunk, Terminator).value;
    if v + 4 <= |before| {
      assert s[v..v + 4] == before[v..v + 4];
      assert MatchAt(before, Terminator, v);
    }
  }

  /** Where reading a request stops: without a complete head only at the end of the stream;
      with one, once the declared length has arrived behind it or the stream has ended, and
      never more than one chunk of 1024 past the declared length. */
  predicate ReadStops(rt: Runtime, raw: seq<byte>, rest: seq<seq<byte>>) {
    && (!Contains(raw, Terminator) ==> Stream(rest) == [])
    && (Contains(raw, Terminator) ==>
          var behind, declared := |raw| - (Find(raw, Terminator).value + 4), DeclaredLength(rt, raw);
          && (behind >= declared || Stream(rest) == [])
          && (behind < RecvSize || behind <= declared))
  }

  /** The bytes the first read loop ends with, and what is left unread, after `raw` so far: one
      `recv(1024)` at a time, stopping at the end of the stream or with the chunk that completes
      `\r\n\r\n`. */
  function HeadRead(raw: seq<byte>, pending: seq<seq<byte>>): (seq<byte>, seq<seq<byte>>)
    decreases |Stream(pending)|
  {
    var received := Recv(pending, RecvSize);
    if received.0 == [] then (raw, received.1)
    else if Contains(raw + received.0, Terminator) then (raw + received.0, received.1)
    else HeadRead(raw + received.0, received.1)
  }

  /** The bytes the second read loop ends with, and what is left unread: one
      `recv(min(1024, remaining))` at a time while fewer than `contentLength` bytes lie behind the
      head, which ends at `headersEnd`, stopping at the end of the stream. */
  function BodyRead(raw: seq<byte>, pending: seq<seq<byte>>, headersEnd: int, contentLength: int)
    : (seq<byte>, seq<seq<byte>>)
    decreases |Stream(pending)|
  {
    if |raw| - headersEnd >= contentLength then (raw, pending)
    else
      var received := Recv(pending, Min(RecvSize, contentLength - (|raw| - headersEnd)));
      if received.0 == [] then (raw, received.1)
      else BodyRead(raw + received.0, received.1, headersEnd, contentLength)
  }

  /** The bytes `_handle_request` reads off the stream `incoming`, and what it leaves unread. */
  function Read(rt: Runtime, incoming: seq<seq<byte>>): (seq<byte>, seq<seq<byte>>) {
    var head := HeadRead([], incoming);
    var contentLength := DeclaredLength(rt, head.0);
    if contentLength > 0 && Contains(head.0, Terminator) then
      BodyRead(head.0, head.1, Find(head.0, Terminator).value + 4, contentLength)
    else head
  }

  /** A first chunk that holds the whole head and declares no body is all that is read, whatever
      follows it on the stream. */
  lemma FirstChunkHead(rt: Runtime, incoming: seq<seq<byte>>)
    requires incoming != [] && incoming[0] != [] && |incoming[0]| <= RecvSize
    requires Contains(incoming[0], Terminator) && DeclaredLength(rt, incoming[0]) <= 0
    ensures Read(rt, incoming) == (incoming[0], incoming[1..])
  {
    assert [] + incoming[0] == incoming[0];
  }

  /** The body loop never reads past the declared length. */
  lemma {:induction false} BodyReadBounded(raw: seq<byte>, pending: seq<seq<byte>>, headersEnd: int, contentLength: int)
    requires |raw| - headersEnd <= contentLength
    ensures |BodyRead(raw, pending, headersEnd, contentLength).0| - headersEnd <= contentLength
    decreases |Stream(pending)|
  {
    if |raw| - headersEnd < contentLength {
      var received := Recv(pending, Min(RecvSize, contentLength - (|raw| - headersEnd)));
      if received.0 != [] {
        BodyReadBounded(raw + received.0, received.1, headersEnd, contentLength);
      }
    }
  }

  /** The two read loops of `_handle_request`. The head is read in chunks of 1024 until the bytes
      so far contain `\r\n\r\n` or the stream ends; then, if the head declares a positive length,
      the body is read with requests of at most `min(1024, remaining)` bytes until that many bytes
      follow the head or the stream ends. Returns the bytes read and what is left unread. */
  method ReadRequest(rt: Runtime, incoming: seq<seq<byte>>) returns (raw: seq<byte>, rest: seq<seq<byte>>)
    ensures (raw, rest) == Read(rt, incoming)
    ensures raw + Stream(rest) == Stream(incoming)
    ensures ReadStops(rt, raw, rest)
  {
    var contentLength;
    raw, rest, contentLength := ReadHead(rt, incoming);
    if contentLength > 0 {
      raw, rest := ReadBody(rt, raw, rest, contentLength);
    }
  }

  /** The first loop: chunks of 1024 until the head is complete or the stream ends, and the
      declared length once the head is complete. */
  method ReadHead(rt: Runtime, incoming: seq<seq<byte>>) returns (raw: seq<byte>, rest: seq<seq<byte>>, contentLength: int)
    ensures (raw, rest) == HeadRead([], incoming) && contentLength == DeclaredLength(rt, raw)
    ensures raw + Stream(rest) == Stream(incoming)
    ensures !Contains(raw, Terminator) ==> Stream(rest) == []
    ensures Contains(raw, Terminator) ==> |raw| - (Find(raw, Terminator).value + 4) < RecvSize
  {
    raw, rest := [], incoming;
    contentLength := 0;
    var headersComplete := false;
    while !headersComplete
      invariant !headersComplete ==> HeadRead(raw, rest) == HeadRead([], incoming)
      invariant headersComplete ==> (raw, rest) == HeadRead([], incoming)
      invariant raw + Stream(rest) == Stream(incoming)
      invariant headersComplete == Contains(raw, Terminator)
      invariant headersComplete ==> contentLength == DeclaredLength(rt, raw)
      invariant headersComplete ==> |raw| - (Find(raw, Terminator).value + 4) < RecvSize
      invariant !headersComplete ==> contentLength == 0
      decreases |Stream(rest)|
    {
      var received := Recv(rest, RecvSize);
      var chunk := received.0;
      rest := received.1;
      if chunk == [] {
        break;
      }
      var before := raw;
      ConcatAssoc(raw, chunk, Stream(rest));
      raw := raw + chunk;
      if Contains(raw, Terminator) {
        headersComplete := true;
        HeadEndsInLastChunk(before, chunk);
        var p := Find(raw, Terminator).value;
        match rt.decode(raw[..p]) {
          case Success(text) =>
            contentLength := ScanContentLength(text);
          case Failure(_) =>
        }
      }
    }
  }

  /** The second loop stops as `ReadStops` says: with the declared length behind the head, or at
      the end of the stream. */
  lemma BodyStops(rt: Runtime, raw: seq<byte>, rest: seq<seq<byte>>, headersEnd: int, contentLength: int)
    requires Contains(raw, Terminator) && Find(raw, Terminator).value + 4 == headersEnd
    requires contentLength == DeclaredLength(rt, raw)
    requires |raw| - headersEnd < RecvSize || |raw| - headersEnd <= contentLength
    requires |raw| - headersEnd >= contentLength || Stream(rest) == []
    ensures ReadStops(rt, raw, rest)
  {
  }

  /** The second loop: requests of at most `min(1024, remaining)` bytes until the declared length
      has arrived behind the head or the stream ends. */
  method ReadBody(rt: Runtime, head: seq<byte>, pending: seq<seq<byte>>, contentLength: int)
    returns (raw: seq<byte>, rest: seq<seq<byte>>)
    requires Contains(head, Terminator) && contentLength == DeclaredLength(rt, head) && contentLength > 0
    requires |head| - (Find(head, Terminator).value + 4) < RecvSize
    ensures (raw, rest) == BodyRead(head, pending, Find(head, Terminator).value + 4, contentLength)
    ensures raw + Stream(rest) == head + Stream(pending)
    ensures ReadStops(rt, raw, rest)
  {
    raw, rest := head, pending;
    var headersEnd := Find(raw, Terminator).value + 4;
    var bodyReceived := |raw| - headersEnd;
    while bodyReceived < contentLength
      invariant BodyRead(raw, rest, headersEnd, contentLength) == BodyRead(head, pending, headersEnd, contentLength)
      invariant raw + Stream(rest) == head + Stream(pending)
      invariant Contains(raw, Terminator) && Find(raw, Terminator).value + 4 == headersEnd
      invariant contentLength == DeclaredLength(rt, raw)
      invariant bodyReceived == |raw| - headersEnd
      invariant bodyReceived < RecvSize || bodyReceived <= contentLength
      decreases |Stream(rest)|
    {
      var received := Recv(rest, Min(RecvSize, contentLength - bodyReceived));
      var chunk := received.0;
      rest := received.1;
      if chunk == [] {
        break;
      }
      DeclaredLengthStable(rt, raw, chunk);
      ConcatAssoc(raw, chunk, Stream(rest));
      raw := raw + chunk;
      bodyReceived := |raw| - headersEnd;
    }
    BodyStops(rt, raw, rest, headersEnd, contentLength);
  }

  // ---------------------------------------------------------------------------
  // Header fields

  /** `key, value = line.split(': ', 1)`, with the key lower-cased. */
  function HeaderField(line: string): (field: (string, string))
    requires Contains(line, ": ")
    ensures |field.0| + 2 + |field.1| == |line|
    ensures var p := |field.0|;
      && MatchAt(line, ": ", p)
      && (forall i: nat :: i < p ==> !MatchAt(line, ": ", i))
      && field.0 == Lower(line[..p]) && field.1 == line[p + 2..]
    ensures forall i :: 0 <= i < |field.0| ==> !('A' <= field.0[i] <= 'Z')
  {
    var p := Find(line, ": ").value;
    (Lower(line[..p]), line[p + 2..])
  }

  /** The line sets a header field named `key`. */
  predicate Names(line: string, key: string) {
    Contains(line, ": ") && HeaderField(line).0 == key
  }

  /** What the `headers` dict holds for `key` after the loop over `lines`: the value of the last
      line that names it. */
  function FieldValue(lines: seq<string>, key: string): (v: Option<string>)
    ensures v.None? <==> forall i :: 0 <= i < |lines| ==> !Names(lines[i], key)
  {
    if lines == [] then None
    else
      var last := lines[|lines| - 1];
      if Names(last, key) then Some(HeaderField(last).1)
      else
        var v := FieldValue(lines[..|lines| - 1], key);
        assert forall i :: 0 <= i < |lines| - 1 ==> lines[..|lines| - 1][i] == lines[i];
        v
  }

  /** A field named again further down is overwritten: the last line naming a key supplies its value. */
  lemma {:induction false} LastFieldWins(lines: seq<string>, i: nat)
    requires i < |lines| && Contains(lines[i], ": ")
    requires forall j :: i < j < |lines| ==> !Names(lines[j], HeaderField(lines[i]).0)
    ensures FieldValue(lines, HeaderField(lines[i]).0) == Some(HeaderField(lines[i]).1)
  {
    if i < |lines| - 1 {
      var front := lines[..|lines| - 1];
      assert front[i] == lines[i];
      LastFieldWins(front, i);
    }
  }

  /** The header loop of `_handle_request`, over the lines after the request line. */
  method ParseHeaders(lines: seq<string>) returns (headers: map<string, string>)
    ensures forall key :: key in headers <==> FieldValue(lines, key).Some?
    ensures forall key :: key in headers ==> Some(headers[key]) == FieldValue(lines, key)
  {
    headers := map[];
    for i := 0 to |lines|
      invariant forall key :: key in headers <==> FieldValue(lines[..i], key).Some?
      invariant forall key :: key in headers ==> Some(headers[key]) == FieldValue(lines[..i], key)
    {
      assert lines[..i + 1][..i] == lines[..i];
      if Contains(lines[i], ": ") {
        var field := HeaderField(lines[i]);
        headers := headers[field.0 := field.1];
      }
    }
    assert lines[..|lines|] == lines;
  }

  // ---------------------------------------------------------------------------
  // The response head

  /** Python truthiness of `self._session_id`: set, and not the empty string. */
  predicate Truthy(session: Option<string>) {
    session.Some? && session.value != ""
  }

  const AllowOrigin: string := "Access-Control-Allow-Origin: " + "*"
  const AllowMethods: string := "Access-Control-Allow-Methods: " + "POST, GET, OPTIONS, DELETE"
  const AllowHeaders: string := "Access-Control-Allow-Headers: " + "Content-Type, Mcp-Session-Id"
  const SessionHeader: string := "Mcp-Session-Id"

  /** `key + ": " + value` for each extra header, in the dict's order. */
  function FieldLines(fields: seq<(string, string)>): (lines: seq<string>)
    ensures |lines| == |fields|
  {
    seq(|fields|, i requires 0 <= i < |fields| => fields[i].0 + ": " + fields[i].1)
  }

  /** The session line is sent when a session is set and the caller passed no extra headers;
      a dict of extra headers, even an empty one, replaces it. */
  function SessionLines(session: Option<string>, extra: Option<seq<(string, string)>>): (lines: seq<string>)
    ensures |lines| <= 1
    ensures |lines| == 1 <==> Truthy(session) && extra.None?
  {
    if Truthy(session) && extra.None? then [SessionHeader + ": " + session.value] else []
  }

  /** The status line, the content type and the three CORS fields. */
  function FixedLines(status: string, contentType: string): (lines: seq<string>)
    ensures |lines| == 5
  {
    ["HTTP/1.1 " + status, "Content-Type: " + contentType, AllowOrigin, AllowMethods, AllowHeaders]
  }

  /** The session line, then the extra header fields. */
  function ExtraLines(session: Option<string>, extra: Option<seq<(string, string)>>): seq<string> {
    SessionLines(session, extra) + if extra.Some? then FieldLines(extra.value) else []
  }

  /** The lines of the head before the blank line. */
  function HeadLines(status: string, contentType: string, session: Option<string>,
                     extra: Option<seq<(string, string)>>, length: nat): (lines: seq<string>)
    ensures |lines| >= 6
    ensures lines[|lines| - 1] == "Content-Length: " + Decimal(length)
  {
    FixedLines(status, contentType) + ExtraLines(session, extra) + ["Content-Length: " + Decimal(length)]
  }

  /** The head text, each line ended by CRLF, then the blank line. */
  function Head(status: string, contentType: string, session: Option<string>,
                extra: Option<seq<(string, string)>>, length: nat): string
  {
    Join(HeadLines(status, contentType, session, extra, length), CRLF) + CRLF + CRLF
  }

  /** The encoded head ends with the blank line, so whatever follows it, the bytes hold `\r\n\r\n`. */
  lemma HeadThenPayload(status: string, contentType: string, session: Option<string>,
                        extra: Option<seq<(string, string)>>, length: nat, payload: seq<byte>)
    ensures Contains(Utf8(Head(status, contentType, session, extra, length)) + payload, Terminator)
  {
    var text := Join(HeadLines(status, contentType, session, extra, length), CRLF);
    HeadBytes(text);
    ContainsMiddle(Utf8(text), Terminator, payload);
  }

  /** The bytes of a response whose `Content-Length` counts the encoded body: a complete head,
      then the encoded body. */
  function Wire(status: string, contentType: string, session: Option<string>,
                extra: Option<seq<(string, string)>>, body: string): (w: seq<byte>)
    ensures Contains(w, Terminator)
    ensures |w| >= |Utf8(body)| && w[|w| - |Utf8(body)|..] == Utf8(body)
  {
    var payload := Utf8(body);
    HeadThenPayload(status, contentType, session, extra, |payload|, payload);
    Utf8(Head(status, contentType, session, extra, |payload|)) + payload
  }

  /** The bytes `_send_http_response` sends as written: `Content-Length` is `len(body)`, which for
      a `str` counts characters, while the body goes out UTF-8 encoded. Still a complete head, then
      the encoded body. */
  function WireAsWritten(status: string, contentType: string, session: Option<string>,
                         extra: Option<seq<(string, string)>>, body: string): (w: seq<byte>)
    ensures Contains(w, Terminator)
    ensures |w| >= |Utf8(body)| && w[|w| - |Utf8(body)|..] == Utf8(body)
  {
    HeadThenPayload(status, contentType, session, extra, |body|, Utf8(body));
    Utf8(Head(status, contentType, session, extra, |body|)) + Utf8(body)
  }

  // ---------------------------------------------------------------------------
  // Framing a response

  /** A line whose fixed beginning differs from `content-length:` at some position (ignoring
      ASCII case) does not declare a length. */
  lemma NotDeclaring(prefix: string, rest: string, i: nat)
    requires i < |prefix| && i < 15 && LowerChar(prefix[i]) != "content-length:"[i]
    ensures !DeclaresLength(prefix + rest)
  {
    assert Lower(prefix + rest)[i] == LowerChar(prefix[i]);
  }

  /** The `Content-Length` line declares a length, whatever follows the colon. */
  lemma LengthLineDeclares(value: string)
    ensures DeclaresLength("Content-Length:" + value)
  {
    var line := "Content-Length:" + value;
    forall i | 0 <= i < 15 ensures Lower(line)[i] == "content-length:"[i] {
      assert line[i] == "Content-Length:"[i];
    }
  }

  /** Python's `" " + str(n)` stripped is `str(n)`. */
  lemma StripPadded(digits: string)
    requires digits != [] && AllDigits(digits)
    ensures Strip(" " + digits) == digits
  {
    assert IsDigit(digits[0]) && IsDigit(digits[|digits| - 1]);
    StripPaddedWord(digits);
  }

  /** The `Content-Length` line splits at its one colon. */
  lemma SplitLengthLine(digits: string)
    requires AllDigits(digits)
    ensures Split("Content-Length: " + digits, ":") == ["Content-Length", " " + digits]
  {
    var value := " " + digits;
    assert Split(value, ":") == [value] by {
      forall i | 0 <= i < |value| ensures value[i] != ':' {
        if i > 0 { assert value[i] == digits[i - 1]; }
      }
      NoMatchWithoutHead(value, ":");
    }
    assert Split("Content-Length" + ":" + value, ":") == ["Content-Length"] + [value] by {
      SplitFirstPiece("Content-Length", ":", value);
    }
    assert "Content-Length" + ":" + value == "Content-Length: " + digits;
  }

  /** The `Content-Length` line declares the number it was built from. */
  lemma LengthLineValue(n: nat)
    ensures DeclaresLength("Content-Length: " + Decimal(n))
    ensures LengthValue("Content-Length: " + Decimal(n)) == Some(n)
  {
    var digits := Decimal(n);
    LengthLineDeclares(" " + digits);
    assert "Content-Length:" + (" " + digits) == "Content-Length: " + digits;
    SplitLengthLine(digits);
    StripPadded(digits);
    ParseDecimal(n);
  }

  /** The lines of a head built from `status`, `contentType`, the session id and the extra
      fields contain no carriage return, are never empty, and only the last declares a length,
      provided none of those strings holds a carriage return and every extra field is the
      session field. */
  predicate HeadInputsSafe(status: string, contentType: string, session: Option<string>,
                           extra: Option<seq<(string, string)>>)
  {
    && '\r' !in status && '\r' !in contentType
    && (session.Some? ==> '\r' !in session.value)
    && (extra.Some? ==> forall i :: 0 <= i < |extra.value| ==>
          extra.value[i].0 == SessionHeader && '\r' !in extra.value[i].1)
  }

  /** A head line that can sit before the `Content-Length` line. */
  predicate PlainLine(line: string) {
    line != [] && '\r' !in line && !DeclaresLength(line)
  }

  lemma PrefixedLine(prefix: string, rest: string, i: nat)
    requires '\r' !in prefix && '\r' !in rest
    requires i < |prefix| && i < 15 && LowerChar(prefix[i]) != "content-length:"[i]
    ensures PlainLine(prefix + rest)
  {
    NotDeclaring(prefix, rest, i);
  }

  lemma CorsLines()
    ensures PlainLine(AllowOrigin) && PlainLine(AllowMethods) && PlainLine(AllowHeaders)
  {
    OriginLinePlain();
    MethodsLinePlain();
    HeadersLinePlain();
  }

  lemma OriginLinePlain()
    ensures PlainLine(AllowOrigin)
  {
    PrefixedLine("Access-Control-Allow-Origin: ", "*", 0);
  }

  lemma MethodsLinePlain()
    ensures PlainLine(AllowMethods)
  {
    PrefixedLine("Access-Control-Allow-Methods: ", "POST, GET, OPTIONS, DELETE", 0);
  }

  lemma HeadersLinePlain()
    ensures PlainLine(AllowHeaders)
  {
    PrefixedLine("Access-Control-Allow-Headers: ", "Content-Type, Mcp-Session-Id", 0);
  }

  /** Every line of `lines` can sit before the `Content-Length` line. */
  predicate AllPlain(lines: seq<string>) {
    forall k :: 0 <= k < |lines| ==> PlainLine(lines[k])
  }

  lemma AllPlainConcat(a: seq<string>, b: seq<string>)
    requires AllPlain(a) && AllPlain(b)
    ensures AllPlain(a + b)
  {
    forall k | 0 <= k < |a + b| ensures PlainLine((a + b)[k]) {
      if k >= |a| {
        assert (a + b)[k] == b[k - |a|];
      }
    }
  }

  lemma FixedLinesPlain(status: string, contentType: string)
    requires '\r' !in status && '\r' !in contentType
    ensures AllPlain(FixedLines(status, contentType))
  {
    PrefixedLine("HTTP/1.1 ", status, 0);
    PrefixedLine("Content-Type: ", contentType, 8);
    CorsLines();
  }

  lemma ExtraLinesPlain(session: Option<string>, extra: Option<seq<(string, string)>>)
    requires HeadInputsSafe("", "", session, extra)
    ensures AllPlain(ExtraLines(session, extra))
  {
    var sessionLines := SessionLines(session, extra);
    var fieldLines := if extra.Some? then FieldLines(extra.value) else [];
    if sessionLines != [] {
      PrefixedLine(SessionHeader + ": ", session.value, 0);
    }
    forall k | 0 <= k < |fieldLines| ensures PlainLine(fieldLines[k]) {
      var field := extra.value[k];
      PrefixedLine(SessionHeader + ": ", field.1, 0);
    }
    AllPlainConcat(sessionLines, fieldLines);
  }

  lemma LengthLineClean(length: nat)
    ensures var line := "Content-Length: " + Decimal(length);
      line != [] && '\r' !in line && DeclaresLength(line)
  {
    var digits := Decimal(length);
    forall i | 0 <= i < |digits| ensures digits[i] != '\r' {
      assert IsDigit(digits[i]);
    }
    LengthLineValue(length);
  }

  lemma {:induction false} HeadLinesWellFormed(status: string, contentType: string, session: Option<string>,
                                               extra: Option<seq<(string, string)>>, length: nat)
    requires HeadInputsSafe(status, contentType, session, extra)
    ensures var lines := HeadLines(status, contentType, session, extra, length);
      && (forall k :: 0 <= k < |lines| ==> lines[k] != [] && '\r' !in lines[k])
      && (forall k :: 0 <= k < |lines| - 1 ==> !DeclaresLength(lines[k]))
  {
    var front := FixedLines(status, contentType) + ExtraLines(session, extra);
    FixedLinesPlain(status, contentType);
    ExtraLinesPlain(session, extra);
    AllPlainConcat(FixedLines(status, contentType), ExtraLines(session, extra));
    LengthLineClean(length);
  }

  /** `"\r\n".encode()` */
  lemma CrlfBytes()
    ensures Utf8(CRLF) == [13, 10]
  {
    assert CRLF[1..] == "\n";
    assert "\n"[1..] == "";
  }

  /** Lines ended by CRLF and a blank line, encoded: the first `\r\n\r\n` is the one after the
      last line, when no line is empty or holds a carriage return. */
  lemma {:induction false} BlankLineAfterHead(lines: seq<string>, payload: seq<byte>)
    requires |lines| > 0 && forall k :: 0 <= k < |lines| ==> lines[k] != [] && '\r' !in lines[k]
    ensures var text := Join(lines, CRLF);
      var w := Utf8(text + CRLF + CRLF) + payload;
      && Find(w, Terminator) == Some(|Utf8(text)|)
      && w[..|Utf8(text)|] == Utf8(text)
      && w[|Utf8(text)| + 4..] == payload
  {
    var text := Join(lines, CRLF);
    var sep: seq<byte> := [13, 10];
    HeadBytes(text);
    CrlfBytes();
    Utf8Join(lines, CRLF);
    var encoded := EncodeEach(lines);
    forall k | 0 <= k < |encoded| ensures encoded[k] != [] && sep[0] !in encoded[k] {
      Utf8NoCr(lines[k]);
    }
    FindBlankLine(encoded, sep, payload);
    assert Terminator == sep + sep;
    assert Utf8(text) == Join(encoded, sep);
    ConcatAssoc(Utf8(text), Terminator, payload);
  }

  /** The head text declares the length of its only `Content-Length` line, the last one. */
  lemma {:induction false} HeadDeclares(lines: seq<string>, length: nat)
    requires |lines| > 0 && lines[|lines| - 1] == "Content-Length: " + Decimal(length)
    requires forall k :: 0 <= k < |lines| ==> '\r' !in lines[k]
    requires forall k :: 0 <= k < |lines| - 1 ==> !DeclaresLength(lines[k])
    ensures ContentLength(Join(lines, CRLF)) == length
  {
    SplitJoin(lines, CRLF);
    LengthLineValue(length);
    assert FirstDeclaration(lines) == Some(|lines| - 1);
  }

  /** The encoded head is the encoded lines followed by the four bytes of the blank line. */
  lemma HeadBytes(text: string)
    ensures Utf8(text + CRLF + CRLF) == Utf8(text) + Terminator
  {
    CrlfBytes();
    Utf8Concat(text + CRLF, CRLF);
    Utf8Concat(text, CRLF);
  }

  /** A reader that frames `head + payload` as `_handle_request` frames a request finds the end
      of the head at the last four bytes of `head`, the payload right behind it, and the length
      `length` declared. */
  predicate FramesAs(rt: Runtime, head: seq<byte>, payload: seq<byte>, length: int) {
    var w := head + payload;
    && |head| >= 4
    && Find(w, Terminator) == Some(|head| - 4)
    && w[|head|..] == payload
    && DeclaredLength(rt, w) == length
  }

  /** Framing, for any head whose text before the blank line decodes and declares `length`. */
  lemma FramesAsDecoded(rt: Runtime, b: seq<byte>, text: string, head: seq<byte>, payload: seq<byte>, length: int)
    requires head == b + Terminator
    requires Find(head + payload, Terminator) == Some(|b|)
    requires (head + payload)[..|b|] == b && (head + payload)[|b| + 4..] == payload
    requires rt.decode(b) == Success(text) && ContentLength(text) == length
    ensures FramesAs(rt, head, payload, length)
  {
  }

  /** Framing, for any lines that are not empty, hold no carriage return, and end with the one
      line that declares a length. */
  lemma {:induction false} FramedLines(rt: Runtime, lines: seq<string>, length: nat, payload: seq<byte>)
    requires |lines| > 0 && lines[|lines| - 1] == "Content-Length: " + Decimal(length)
    requires forall k :: 0 <= k < |lines| ==> lines[k] != [] && '\r' !in lines[k]
    requires forall k :: 0 <= k < |lines| - 1 ==> !DeclaresLength(lines[k])
    requires rt.decode(Utf8(Join(lines, CRLF))) == Success(Join(lines, CRLF))
    ensures FramesAs(rt, Utf8(Join(lines, CRLF) + CRLF + CRLF), payload, length)
  {
    var text := Join(lines, CRLF);
    HeadBytes(text);
    BlankLineAfterHead(lines, payload);
    HeadDeclares(lines, length);
    FramesAsDecoded(rt, Utf8(text), text, Utf8(text + CRLF + CRLF), payload, length);
  }

  /** A reader that frames a response as `_handle_request` frames a request finds the end of the
      head right after the `Content-Length` line, the payload right behind it, and the declared
      length it was built with. The decoder is only asked to give back the text of this head. */
  lemma HeadFraming(rt: Runtime, status: string, contentType: string, session: Option<string>,
                    extra: Option<seq<(string, string)>>, length: nat, payload: seq<byte>)
    requires HeadInputsSafe(status, contentType, session, extra)
    requires var text := Join(HeadLines(status, contentType, session, extra, length), CRLF);
      rt.decode(Utf8(text)) == Success(text)
    ensures FramesAs(rt, Utf8(Head(status, contentType, session, extra, length)), payload, length)
  {
    var lines := HeadLines(status, contentType, session, extra, length);
    HeadLinesWellFormed(status, contentType, session, extra, length);
    FramedLines(rt, lines, length, payload);
    assert Utf8(Head(status, contentType, session, extra, length)) == Utf8(Join(lines, CRLF) + CRLF + CRLF);
  }

  /** With the length counted in bytes, the declared length is exactly the number of bytes
      behind the head, whatever the body. */
  lemma WireDeclaresItsBody(rt: Runtime, status: string, contentType: string, session: Option<string>,
                            extra: Option<seq<(string, string)>>, body: string)
    requires HeadInputsSafe(status, contentType, session, extra)
    requires var text := Join(HeadLines(status, contentType, session, extra, |Utf8(body)|), CRLF);
      rt.decode(Utf8(text)) == Success(text)
    ensures var w := Wire(status, contentType, session, extra, body);
      && Contains(w, Terminator)
      && DeclaredLength(rt, w) == |w| - (Find(w, Terminator).value + 4)
      && w[Find(w, Terminator).value + 4..] == Utf8(body)
  {
    HeadFraming(rt, status, contentType, session, extra, |Utf8(body)|, Utf8(body));
  }

  /** As written, the declared length matches the bytes behind the head exactly when the body
      is ASCII: any other character takes more than one byte, so the reader stops short. */
  lemma WireAsWrittenMiscounts(rt: Runtime, status: string, contentType: string, session: Option<string>,
                               extra: Option<seq<(string, string)>>, body: string)
    requires HeadInputsSafe(status, contentType, session, extra)
    requires var text := Join(HeadLines(status, contentType, session, extra, |body|), CRLF);
      rt.decode(Utf8(text)) == Success(text)
    ensures CharactersDeclared(rt, WireAsWritten(status, contentType, session, extra, body), body)
  {
    var head := Utf8(Head(status, contentType, session, extra, |body|));
    assert FramesAs(rt, head, Utf8(body), |body|) by {
      HeadFraming(rt, status, contentType, session, extra, |body|, Utf8(body));
    }
    assert CharactersDeclared(rt, head + Utf8(body), body) by {
      FramedCharacters(rt, head, body);
    }
  }

  /** `w` holds a complete head, the encoded body behind it, and a head that declares the body's
      number of characters: as many as the bytes behind the head exactly for an ASCII body, and
      never more. */
  predicate CharactersDeclared(rt: Runtime, w: seq<byte>, body: string) {
    && Contains(w, Terminator)
    && w[Find(w, Terminator).value + 4..] == Utf8(body)
    && DeclaredLength(rt, w) == |body|
    && (DeclaredLength(rt, w) == |w| - (Find(w, Terminator).value + 4) <==> IsAscii(body))
    && DeclaredLength(rt, w) <= |w| - (Find(w, Terminator).value + 4)
  }

  /** A head that frames the encoded body while declaring its number of characters. */
  lemma FramedCharacters(rt: Runtime, head: seq<byte>, body: string)
    requires FramesAs(rt, head, Utf8(body), |body|)
    ensures var w := head + Utf8(body);
      && Contains(w, Terminator)
      && w[Find(w, Terminator).value + 4..] == Utf8(body)
      && DeclaredLength(rt, w) == |body|
      && (DeclaredLength(rt, w) == |w| - (Find(w, Terminator).value + 4) <==> IsAscii(body))
      && DeclaredLength(rt, w) <= |w| - (Find(w, Terminator).value + 4)
  {
  }

  /** One response that shows it: the body `"é"` is one character and two bytes. */
  lemma {:induction false} OneAccentedCharacter(rt: Runtime)
    requires var text := Join(HeadLines("200 OK", "text/html", None, None, 1), CRLF);
      rt.decode(Utf8(text)) == Success(text)
    ensures var w := WireAsWritten("200 OK", "text/html", None, None, "\U{E9}");
      DeclaredLength(rt, w) == 1 && |w| - (Find(w, Terminator).value + 4) == 2
  {
    var body := "\U{E9}";
    assert |body| == 1 && |Utf8(body)| == 2 by {
      assert Utf8(body) == EncodeChar(body[0]);
    }
    OkHtmlSafe();
    HeadFraming(rt, "200 OK", "text/html", None, None, 1, Utf8(body));
  }

  lemma OkHtmlSafe()
    ensures HeadInputsSafe("200 OK", "text/html", None, None)
  {
    assert '\r' !in "200 OK";
  }
}
