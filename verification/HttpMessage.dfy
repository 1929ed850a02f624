/**
 What an HTTP/1.1 response means on the wire: a reader as a function of the bytes that follow, and a
 serializer for its three framings (RFC 9112, sections 6.3 and 7.1). One `Octet` is one ISO-8859-1 character.
*/
module HttpMessage {
  import opened Wrappers
  import opened Numerals

  type Octet = c: char | c as int < 256 witness 'x'
  type Bytes = seq<Octet>

  datatype FetchError = ProtocolRejected | ResponseTooLarge

  datatype Response = Response(status: int, content: Bytes, headers: map<string, string>)

  const LINE_LIMIT: nat := 65536
  const READ_SIZE: nat := 65536
  const MAX_HEADER_BYTES: nat := 32768
  const MAX_HEADER_COUNT: nat := 100

  // ---------------------------------------------------------------- reading

  /** The first index of `c`, or the length. */
  function IndexOf(s: string, c: char): (k: nat)
    ensures k <= |s|
    ensures k < |s| ==> s[k] == c
    ensures forall i :: 0 <= i < k ==> s[i] != c
  {
    if s == [] || s[0] == c then 0 else 1 + IndexOf(s[1..], c)
  }

  /** One CRLF-terminated line within the stream limit, and what follows it. */
  function TakeLine(w: Bytes): (r: Result<(Bytes, Bytes), FetchError>)
    ensures r.Ok? ==> |r.value.0| + |r.value.1| + 2 == |w|
  {
    var k := IndexOf(w, '\n');
    if k == |w| || k > LINE_LIMIT || k == 0 || w[k - 1] != '\r' then Err(ProtocolRejected)
    else Ok((w[..k - 1], w[k + 1..]))
  }

  /** The status of `protocol SP code SP reason`. */
  function StatusOf(line: string): (r: Option<int>)
    ensures r.Some? ==> 100 <= r.value <= 599
  {
    var i := IndexOf(line, ' ');
    if i == |line| then None
    else
      var tail := line[i + 1..];
      var j := IndexOf(tail, ' ');
      if j == |tail| then None
      else
        var code := PyInt(tail[..j], 10);
        if code.Some? && 100 <= code.value <= 599 then code else None
  }

  function ReadHeaders(w: Bytes, lines: nat, total: nat, acc: map<string, string>)
    : Result<(map<string, string>, Bytes), FetchError>
    decreases lines
  {
    if lines == 0 then Err(ProtocolRejected)
    else
      var taken := TakeLine(w);
      if taken.Err? then Err(ProtocolRejected)
      else
        var line, rest := taken.value.0, taken.value.1;
        var total' := total + |line| + 2;
        var colon := IndexOf(line, ':');
        if total' > MAX_HEADER_BYTES then Err(ProtocolRejected)
        else if line == [] then Ok((acc, rest))
        else if colon == |line| then Err(ProtocolRejected)
        else
          var name := Casefold(Strip(line[..colon]));
          if name == [] || name in acc then Err(ProtocolRejected)
          else ReadHeaders(rest, lines - 1, total', acc[name := Strip(line[colon + 1..])])
  }

  function ReadTrailers(w: Bytes): Result<Bytes, FetchError>
    decreases |w|
  {
    var taken := TakeLine(w);
    if taken.Err? then Err(ProtocolRejected)
    else if taken.value.0 == [] then Ok(taken.value.1)
    else if IndexOf(taken.value.0, ':') == |taken.value.0| then Err(ProtocolRejected)
    else ReadTrailers(taken.value.1)
  }

  function ChunkSize(line: string): Option<int> {
    PyInt(line[..IndexOf(line, ';')], 16)
  }

  /** Exactly one chunk's data and its CRLF. */
  function TakeChunk(w: Bytes, size: nat): (r: Result<(Bytes, Bytes), FetchError>)
    ensures r.Ok? ==> |r.value.0| == size && |r.value.1| + size + 2 == |w|
  {
    if |w| < size + 2 || w[size] != '\r' || w[size + 1] != '\n' then Err(ProtocolRejected)
    else Ok((w[..size], w[size + 2..]))
  }

  function ReadChunks(w: Bytes, maximum: nat, total: nat): Result<(Bytes, Bytes), FetchError>
    decreases |w|
  {
    var taken := TakeLine(w);
    if taken.Err? then Err(ProtocolRejected)
    else
      var size := ChunkSize(taken.value.0);
      if size == None then Err(ProtocolRejected)
      else if size.value < 0 || total + size.value > maximum then Err(ResponseTooLarge)
      else if size.value == 0 then
        var rest := ReadTrailers(taken.value.1);
        if rest.Err? then Err(rest.error) else Ok(([], rest.value))
      else
        var chunk := TakeChunk(taken.value.1, size.value);
        if chunk.Err? then Err(chunk.error)
        else
          var more := ReadChunks(chunk.value.1, maximum, total + size.value);
          if more.Err? then more else Ok((chunk.value.0 + more.value.0, more.value.1))
  }

  function ReadToEof(w: Bytes, maximum: nat): Result<(Bytes, Bytes), FetchError> {
    if |w| <= maximum then Ok((w, [])) else Err(ResponseTooLarge)
  }

  function Get(headers: map<string, string>, name: string): string {
    if name in headers then headers[name] else ""
  }

  function ReadBody(headers: map<string, string>, w: Bytes, maximum: nat): Result<(Bytes, Bytes), FetchError> {
    var encoding := Casefold(Get(headers, "transfer-encoding"));
    if encoding != "" && "content-length" in headers then Err(ProtocolRejected)
    else if encoding != "" then
      if encoding != "chunked" then Err(ProtocolRejected) else ReadChunks(w, maximum, 0)
    else if "content-length" in headers then
      var declared := PyInt(headers["content-length"], 10);
      if declared == None || declared.value < 0 then Err(ProtocolRejected)
      else if declared.value > maximum then Err(ResponseTooLarge)
      else if |w| < declared.value then Err(ProtocolRejected)
      else Ok((w[..declared.value], w[declared.value..]))
    else ReadToEof(w, maximum)
  }

  function ReadResponse(w: Bytes, maximum: nat): Result<(Response, Bytes), FetchError> {
    var taken := TakeLine(w);
    if taken.Err? then Err(ProtocolRejected)
    else
      var status := StatusOf(taken.value.0);
      if status == None then Err(ProtocolRejected)
      else
        var headers := ReadHeaders(taken.value.1, MAX_HEADER_COUNT, |taken.value.0| + 2, map[]);
        if headers.Err? then Err(headers.error)
        else
          var body := ReadBody(headers.value.0, headers.value.1, maximum);
          if body.Err? then Err(body.error)
          else Ok((Response(status.value, body.value.0, headers.value.0), body.value.1))
  }

  // ---------------------------------------------------------------- writing

  /** A header as a server may write it: a name and a value, each with any white space around it. */
  datatype Header = Header(
    name: Bytes, value: Bytes, nameLeft: Bytes, nameRight: Bytes, valueLeft: Bytes, valueRight: Bytes)

  /** A chunk with the text that announces its size and the extensions after it, which begin with a semicolon. */
  datatype Chunk = Chunk(data: Bytes, size: Bytes, extension: Bytes)

  datatype Framing =
    | ByLength(content: Bytes)
    | Chunked(chunks: seq<Chunk>, last: Chunk, trailers: seq<Header>)
    | ToEof(content: Bytes)

  const CRLF: Bytes := ['\r', '\n']

  function HeaderLine(h: Header): Bytes {
    h.nameLeft + h.name + h.nameRight + [':'] + h.valueLeft + h.value + h.valueRight
  }

  function Lines(headers: seq<Header>): Bytes {
    if headers == [] then CRLF else HeaderLine(headers[0]) + CRLF + Lines(headers[1..])
  }

  function ChunkLine(c: Chunk): Bytes {
    c.size + c.extension
  }

  function EncodeChunks(chunks: seq<Chunk>, last: Chunk, trailers: seq<Header>): Bytes {
    if chunks == [] then ChunkLine(last) + CRLF + Lines(trailers)
    else ChunkLine(chunks[0]) + CRLF + chunks[0].data + CRLF + EncodeChunks(chunks[1..], last, trailers)
  }

  function Joined(chunks: seq<Chunk>): Bytes {
    if chunks == [] then [] else chunks[0].data + Joined(chunks[1..])
  }

  function Content(f: Framing): Bytes {
    match f
    case ByLength(content) => content
    case Chunked(chunks, _, _) => Joined(chunks)
    case ToEof(content) => content
  }

  function EncodeBody(f: Framing): Bytes {
    match f
    case ByLength(content) => content
    case Chunked(chunks, last, trailers) => EncodeChunks(chunks, last, trailers)
    case ToEof(content) => content
  }

  function StatusLine(protocol: Bytes, code: Bytes, reason: Bytes): Bytes {
    protocol + [' '] + code + [' '] + reason
  }

  function Serialize(start: Bytes, headers: seq<Header>, f: Framing): Bytes {
    start + CRLF + Lines(headers) + EncodeBody(f)
  }

  // ---------------------------------------------------------------- what may be written

  predicate NoBreak(s: string) {
    forall i :: 0 <= i < |s| ==> s[i] != '\n'
  }

  /** A status line that says `status`, with any protocol and reason. */
  ghost predicate ValidStatus(protocol: Bytes, code: Bytes, reason: Bytes, status: nat) {
    && 100 <= status <= 599 && Writes(code, 10, status) && NoBreak(protocol) && NoBreak(reason)
    && (forall i :: 0 <= i < |protocol| ==> protocol[i] != ' ') && (forall i :: 0 <= i < |code| ==> code[i] != ' ')
    && |StatusLine(protocol, code, reason)| < LINE_LIMIT
  }

  predicate ValidHeader(h: Header) {
    && h.name != [] && Stripped(h.name) && Stripped(h.value) && NoBreak(h.name) && NoBreak(h.value)
    && (forall i :: 0 <= i < |h.name| ==> h.name[i] != ':')
    && Blank(h.nameLeft) && Blank(h.nameRight) && Blank(h.valueLeft) && Blank(h.valueRight)
  }

  function HeaderMap(headers: seq<Header>, acc: map<string, string>): map<string, string> {
    if headers == [] then acc else HeaderMap(headers[1..], acc[Casefold(headers[0].name) := headers[0].value])
  }

  ghost predicate DistinctNames(headers: seq<Header>) {
    forall i, j :: 0 <= i < j < |headers| ==> Casefold(headers[i].name) != Casefold(headers[j].name)
  }

  /** Bytes the reader charges for these headers and the blank line that ends them. */
  function LinesSize(headers: seq<Header>): nat {
    if headers == [] then 2 else |HeaderLine(headers[0])| + 2 + LinesSize(headers[1..])
  }

  /** Whether the reader takes these headers within `lines` lines, `total` bytes having been charged already. */
  ghost predicate Fits(headers: seq<Header>, lines: nat, total: nat, taken: set<string>) {
    && |headers| < lines
    && total + LinesSize(headers) <= MAX_HEADER_BYTES
    && DistinctNames(headers)
    && forall i :: 0 <= i < |headers| ==> Casefold(headers[i].name) !in taken
  }

  predicate ValidTrailer(h: Header) {
    NoBreak(HeaderLine(h)) && |HeaderLine(h)| < LINE_LIMIT
  }

  /** The size line is read as the size of the data. */
  predicate ReadableChunk(c: Chunk) {
    && PyInt(c.size, 16) == Some(|c.data|) && NoBreak(c.size) && (forall i :: 0 <= i < |c.size| ==> c.size[i] != ';')
    && (c.extension == [] || c.extension[0] == ';') && NoBreak(c.extension) && |ChunkLine(c)| < LINE_LIMIT
  }

  /** The announced size is that of the data, in any spelling. */
  ghost predicate ValidChunk(c: Chunk) {
    && Writes(c.size, 16, |c.data|)
    && (c.extension == [] || c.extension[0] == ';') && NoBreak(c.extension) && |ChunkLine(c)| < LINE_LIMIT
  }

  ghost predicate ValidFraming(f: Framing) {
    match f
    case ByLength(content) => true
    case Chunked(chunks, last, trailers) =>
      && (forall i :: 0 <= i < |chunks| ==> ValidChunk(chunks[i]) && chunks[i].data != [])
      && ValidChunk(last) && last.data == []
      && (forall i :: 0 <= i < |trailers| ==> ValidTrailer(trailers[i]))
    case ToEof(_) => true
  }

  predicate NamesFraming(h: Header) {
    Casefold(h.name) == "content-length" || Casefold(h.name) == "transfer-encoding"
  }

  /** The header that announces the framing, its name and value in any case. */
  ghost predicate Frames(h: Header, f: Framing) {
    match f
    case ByLength(content) => Casefold(h.name) == "content-length" && Writes(h.value, 10, |content|)
    case Chunked(_, _, _) => Casefold(h.name) == "transfer-encoding" && Casefold(h.value) == "chunked"
    case ToEof(_) => false
  }

  /** The headers announce this framing and no other: one of them does, wherever it stands, or the stream just ends. */
  ghost predicate Framed(headers: seq<Header>, f: Framing, at: nat) {
    && (!f.ToEof? ==> at < |headers| && Frames(headers[at], f))
    && forall i :: 0 <= i < |headers| && (f.ToEof? || i != at) ==> !NamesFraming(headers[i])
  }
}
