/**
 The other direction of the round trip: whatever the reader accepts is what some writer may have written, so nothing
 malformed is accepted.
*/
module HttpExact {
  import opened Wrappers
  import opened Numerals
  import opened HttpMessage
  import opened HttpRoundTrip

  predicate Spaces(s: string) {
    forall i :: 0 <= i < |s| ==> IsSpace(s[i])
  }

  lemma {:induction false} StripLeftSplits(s: string) returns (left: string)
    ensures s == left + StripLeft(s) && Spaces(left)
    ensures StripLeft(s) == [] || !IsSpace(StripLeft(s)[0])
  {
    hide IsSpace;
    if s == [] || !IsSpace(s[0]) {
      left := [];
    } else {
      var more := StripLeftSplits(s[1..]);
      left := [s[0]] + more;
      assert s == [s[0]] + s[1..];
    }
  }

  lemma {:induction false} StripRightSplits(s: string) returns (right: string)
    ensures s == StripRight(s) + right && Spaces(right)
    ensures StripRight(s) == [] || !IsSpace(StripRight(s)[|StripRight(s)| - 1])
  {
    hide IsSpace;
    if s == [] || !IsSpace(s[|s| - 1]) {
      right := [];
    } else {
      var before, last := s[..|s| - 1], s[|s| - 1];
      var more := StripRightSplits(before);
      right := more + [last];
      assert s == before + [last];
      assert StripRight(s) == StripRight(before);
    }
  }

  /** Stripping takes off white space at both ends and nothing else. */
  lemma StripSplits(s: string) returns (left: string, right: string)
    ensures s == left + Strip(s) + right && Spaces(left) && Spaces(right) && Stripped(Strip(s))
  {
    left := StripLeftSplits(s);
    right := StripRightSplits(StripLeft(s));
    hide StripLeft, StripRight;
    assert s == left + (Strip(s) + right);
    if Strip(s) != [] {
      assert StripLeft(s)[0] == Strip(s)[0];
    }
  }

  lemma StripPieces(s: Bytes) returns (left: Bytes, middle: Bytes, right: Bytes)
    ensures s == left + middle + right && middle == Strip(s) && Stripped(middle) && Spaces(left) && Spaces(right)
  {
    var l, r := StripSplits(s);
    var n := |l| + |Strip(s)|;
    left, middle, right := s[..|l|], s[|l|..n], s[n..];
    assert left == l && middle == Strip(s) && right == r;
  }

  // ---------------------------------------------------------------- lines and headers

  /** A line that is read ends in CRLF, holds no other line feed and is within the stream limit. */
  lemma LineExact(w: Bytes)
    requires TakeLine(w).Ok?
    ensures var line, rest := TakeLine(w).value.0, TakeLine(w).value.1;
            w == line + CRLF + rest && NoBreak(line) && |line| < LINE_LIMIT
  {
    var k := IndexOf(w, '\n');
    assert w == w[..k - 1] + [w[k - 1], w[k]] + w[k + 1..];
  }

  /** A line with a colon behind a name is a header with white space around its parts. */
  lemma HeaderExact(line: Bytes) returns (h: Header)
    requires NoBreak(line) && IndexOf(line, ':') < |line| && Strip(line[..IndexOf(line, ':')]) != []
    ensures ValidHeader(h) && HeaderLine(h) == line
  {
    hide Strip, Stripped, IsSpace;
    var colon := IndexOf(line, ':');
    var before, after := line[..colon], line[colon + 1..];
    var nl, name, nr := StripPieces(before);
    var vl, value, vr := StripPieces(after);
    h := Header(name, value, nl, nr, vl, vr);
    assert line == before + [':'] + after;
    PiecesAreHeader(before, after, h);
  }

  lemma PiecesAreHeader(before: Bytes, after: Bytes, h: Header)
    requires before == h.nameLeft + h.name + h.nameRight && after == h.valueLeft + h.value + h.valueRight
    requires NoBreak(before) && NoBreak(after) && forall i :: 0 <= i < |before| ==> before[i] != ':'
    requires Spaces(h.nameLeft) && Spaces(h.nameRight) && Spaces(h.valueLeft) && Spaces(h.valueRight)
    requires Stripped(h.name) && Stripped(h.value) && h.name != []
    ensures ValidHeader(h) && HeaderLine(h) == before + [':'] + after
  {
    hide Stripped, IsSpace;
    Joins(h.nameLeft, h.name, h.nameRight, h.valueLeft, h.value, h.valueRight);
    PartsUnbroken(h.nameLeft, h.name, h.nameRight);
    PartsUnbroken(h.valueLeft, h.value, h.valueRight);
    assert forall i :: 0 <= i < |h.name| ==> h.name[i] == before[|h.nameLeft| + i];
  }

  lemma Joins(a: Bytes, b: Bytes, c: Bytes, d: Bytes, e: Bytes, f: Bytes)
    ensures (a + b + c) + [':'] + (d + e + f) == a + b + c + [':'] + d + e + f
  {
  }

  lemma PartsUnbroken(a: Bytes, b: Bytes, c: Bytes)
    requires NoBreak(a + b + c) && Spaces(a) && Spaces(c)
    ensures NoBreak(b) && Blank(a) && Blank(c)
  {
    hide IsSpace;
    var s := a + b + c;
    assert forall i :: 0 <= i < |a| ==> a[i] == s[i];
    assert forall i :: 0 <= i < |b| ==> b[i] == s[|a| + i];
    assert forall i :: 0 <= i < |c| ==> c[i] == s[|a| + |b| + i];
  }

  /** A header block that is accepted is a list of headers with white space around names and values. */
  lemma {:induction false} HeadersExact(w: Bytes, lines: nat, total: nat, acc: map<string, string>)
      returns (headers: seq<Header>)
    requires ReadHeaders(w, lines, total, acc).Ok?
    ensures forall i :: 0 <= i < |headers| ==> ValidHeader(headers[i])
    ensures w == Lines(headers) + ReadHeaders(w, lines, total, acc).value.1
    decreases lines
  {
    hide TakeLine, IndexOf, Strip, Casefold, HeaderLine, ValidHeader, NoBreak;
    LineExact(w);
    var line, rest := TakeLine(w).value.0, TakeLine(w).value.1;
    if line == [] {
      headers := [];
      assert w == CRLF + rest;
    } else {
      var colon := IndexOf(line, ':');
      FoldNothing();
      var h := HeaderExact(line);
      var name := Casefold(Strip(line[..colon]));
      var more := HeadersExact(rest, lines - 1, total + |line| + 2, acc[name := Strip(line[colon + 1..])]);
      headers := [h] + more;
      LinesOf(h, more, rest, ReadHeaders(w, lines, total, acc).value.1);
    }
  }

  lemma LinesOf(h: Header, more: seq<Header>, rest: Bytes, after: Bytes)
    requires rest == Lines(more) + after
    ensures HeaderLine(h) + CRLF + rest == Lines([h] + more) + after
  {
    hide HeaderLine;
    assert ([h] + more)[1..] == more;
    assert Lines([h] + more) == HeaderLine(h) + CRLF + Lines(more);
  }

  /** So are the trailers of a chunked body, where even the name may be blank. */
  lemma {:induction false} TrailersExact(w: Bytes) returns (trailers: seq<Header>)
    requires ReadTrailers(w).Ok?
    ensures forall i :: 0 <= i < |trailers| ==> ValidTrailer(trailers[i])
    ensures w == Lines(trailers) + ReadTrailers(w).value
    decreases |w|
  {
    hide TakeLine, IndexOf;
    LineExact(w);
    var line, rest := TakeLine(w).value.0, TakeLine(w).value.1;
    if line == [] {
      trailers := [];
      assert w == CRLF + rest;
    } else {
      var k := IndexOf(line, ':');
      var h := Header(line[..k], line[k + 1..], [], [], [], []);
      assert HeaderLine(h) == line;
      var more := TrailersExact(rest);
      trailers := [h] + more;
      LinesOf(h, more, rest, ReadTrailers(w).value);
    }
  }

  // ---------------------------------------------------------------- chunks

  lemma ChunkLineExact(line: Bytes, data: Bytes) returns (c: Chunk)
    requires NoBreak(line) && |line| < LINE_LIMIT && ChunkSize(line) == Some(|data|)
    ensures ReadableChunk(c) && ChunkLine(c) == line && c.data == data
  {
    hide PyInt;
    var k := IndexOf(line, ';');
    c := Chunk(data, line[..k], line[k..]);
    assert line == line[..k] + line[k..];
  }

  lemma ChunkExact(w: Bytes, size: nat)
    requires TakeChunk(w, size).Ok?
    ensures var data, rest := TakeChunk(w, size).value.0, TakeChunk(w, size).value.1;
            w == data + CRLF + rest && |data| == size
  {
    assert w == w[..size] + [w[size], w[size + 1]] + w[size + 2..];
  }

  /** A chunked body that is accepted is a list of nonempty chunks, a last chunk of size zero and trailers. */
  lemma {:induction false} ChunksExact(w: Bytes, maximum: nat, total: nat)
      returns (chunks: seq<Chunk>, last: Chunk, trailers: seq<Header>)
    requires ReadChunks(w, maximum, total).Ok?
    ensures forall i :: 0 <= i < |chunks| ==> ReadableChunk(chunks[i]) && chunks[i].data != []
    ensures ReadableChunk(last) && last.data == []
    ensures forall i :: 0 <= i < |trailers| ==> ValidTrailer(trailers[i])
    ensures w == EncodeChunks(chunks, last, trailers) + ReadChunks(w, maximum, total).value.1
    ensures Joined(chunks) == ReadChunks(w, maximum, total).value.0
    decreases |w|
  {
    hide TakeLine, TakeChunk, ChunkSize, ReadTrailers, ReadableChunk, ValidTrailer, ChunkLine, Lines;
    LineExact(w);
    var line, after := TakeLine(w).value.0, TakeLine(w).value.1;
    var size := ChunkSize(line).value;
    if size == 0 {
      chunks := [];
      last := ChunkLineExact(line, []);
      trailers := TrailersExact(after);
      assert w == ChunkLine(last) + CRLF + Lines(trailers) + ReadTrailers(after).value;
    } else {
      ChunkExact(after, size);
      var data, rest := TakeChunk(after, size).value.0, TakeChunk(after, size).value.1;
      var c := ChunkLineExact(line, data);
      var more: seq<Chunk>;
      more, last, trailers := ChunksExact(rest, maximum, total + size);
      chunks := [c] + more;
      assert chunks[1..] == more;
      ChunksUnfold(chunks, last, trailers, ReadChunks(w, maximum, total).value.1);
    }
  }

  /** A size that is no numeral is a protocol error; a negative one counts as too large. */
  lemma SizeLineRefused(line: Bytes, after: Bytes, maximum: nat, total: nat)
    requires NoBreak(line) && |line| < LINE_LIMIT
    ensures ChunkSize(line) == None ==> ReadChunks(line + CRLF + after, maximum, total) == Err(ProtocolRejected)
    ensures ChunkSize(line).Some? && ChunkSize(line).value < 0 ==>
              ReadChunks(line + CRLF + after, maximum, total) == Err(ResponseTooLarge)
  {
    hide TakeLine, ChunkSize;
    LineReads(line, after);
  }

  /** How a declared length fails: no length at all, more than is allowed, or more than there is. */
  lemma LengthRefused(m: map<string, string>, w: Bytes, maximum: nat)
    requires "content-length" in m && ("transfer-encoding" in m ==> m["transfer-encoding"] == "")
    ensures var n := PyInt(m["content-length"], 10);
            && (n == None || n.value < 0 ==> ReadBody(m, w, maximum) == Err(ProtocolRejected))
            && (n.Some? && n.value > maximum ==> ReadBody(m, w, maximum) == Err(ResponseTooLarge))
            && (n.Some? && 0 <= n.value <= maximum && |w| < n.value ==>
                  ReadBody(m, w, maximum) == Err(ProtocolRejected))
  {
    hide PyInt;
    FoldNothing();
  }

  // ---------------------------------------------------------------- exactly what is accepted

  ghost predicate HeaderBlock(w: Bytes, lines: nat, total: nat, acc: map<string, string>, headers: seq<Header>,
                              m: map<string, string>, rest: Bytes)
  {
    && (forall i :: 0 <= i < |headers| ==> ValidHeader(headers[i])) && Fits(headers, lines, total, acc.Keys)
    && w == Lines(headers) + rest && m == HeaderMap(headers, acc)
  }

  /** The header reader accepts exactly the written header blocks that fit. */
  lemma HeadersAccepted(w: Bytes, lines: nat, total: nat, acc: map<string, string>, m: map<string, string>, rest: Bytes)
    ensures ReadHeaders(w, lines, total, acc) == Ok((m, rest))
       <==> exists headers :: HeaderBlock(w, lines, total, acc, headers, m, rest)
  {
    hide ReadHeaders, ValidHeader, Fits, Lines, HeaderMap;
    if ReadHeaders(w, lines, total, acc) == Ok((m, rest)) {
      var headers := HeadersExact(w, lines, total, acc);
      HeadersRead(headers, rest, lines, total, acc);
      assert HeaderBlock(w, lines, total, acc, headers, m, rest);
    }
    if headers :| HeaderBlock(w, lines, total, acc, headers, m, rest) {
      HeadersRead(headers, rest, lines, total, acc);
    }
  }

  ghost predicate ChunkedBody(w: Bytes, chunks: seq<Chunk>, last: Chunk, trailers: seq<Header>, data: Bytes,
                              rest: Bytes)
  {
    && (forall i :: 0 <= i < |chunks| ==> ReadableChunk(chunks[i]) && chunks[i].data != [])
    && ReadableChunk(last) && last.data == [] && (forall i :: 0 <= i < |trailers| ==> ValidTrailer(trailers[i]))
    && w == EncodeChunks(chunks, last, trailers) + rest && data == Joined(chunks)
  }

  ghost predicate IsChunked(w: Bytes, data: Bytes, rest: Bytes) {
    exists chunks, last, trailers :: ChunkedBody(w, chunks, last, trailers, data, rest)
  }

  /** The chunk reader accepts exactly the chunked encodings within the bound. */
  lemma ChunksAccepted(w: Bytes, maximum: nat, data: Bytes, rest: Bytes)
    ensures ReadChunks(w, maximum, 0) == Ok((data, rest)) <==> |data| <= maximum && IsChunked(w, data, rest)
  {
    hide ReadChunks, ReadableChunk, ValidTrailer, EncodeChunks, Joined;
    if ReadChunks(w, maximum, 0) == Ok((data, rest)) {
      var chunks, last, trailers := ChunksExact(w, maximum, 0);
      ChunksRead(chunks, last, trailers, rest, maximum, 0);
      assert ChunkedBody(w, chunks, last, trailers, data, rest);
    }
    if IsChunked(w, data, rest) {
      var chunks, last, trailers :| ChunkedBody(w, chunks, last, trailers, data, rest);
      ChunksRead(chunks, last, trailers, rest, maximum, 0);
    }
  }

  /** The three framings: a body is accepted exactly when it is within the bound and framed as its headers say. */
  lemma BodyAccepted(m: map<string, string>, w: Bytes, maximum: nat, content: Bytes, rest: Bytes)
    ensures ReadBody(m, w, maximum) == Ok((content, rest)) <==>
            && |content| <= maximum
            && if "transfer-encoding" in m && m["transfer-encoding"] != "" then
                 "content-length" !in m && Casefold(m["transfer-encoding"]) == "chunked" && IsChunked(w, content, rest)
               else if "content-length" in m then
                 PyInt(m["content-length"], 10) == Some(|content|) && w == content + rest
               else w == content && rest == []
  {
    hide ReadChunks, PyInt, Casefold, IsChunked;
    ChunksAccepted(w, maximum, content, rest);
    FoldNothing();
    if "transfer-encoding" in m && m["transfer-encoding"] != "" {
      FoldNonEmpty(m["transfer-encoding"]);
    } else if "content-length" in m && w == content + rest {
      assert w[..|content|] == content && w[|content|..] == rest;
    }
  }

  ghost predicate StatusParts(line: Bytes, protocol: Bytes, code: Bytes, reason: Bytes, status: int) {
    && line == StatusLine(protocol, code, reason) && 100 <= status <= 599 && PyInt(code, 10) == Some(status)
    && (forall i :: 0 <= i < |protocol| ==> protocol[i] != ' ') && (forall i :: 0 <= i < |code| ==> code[i] != ' ')
  }

  ghost predicate SaysStatus(line: Bytes, status: int) {
    exists protocol: Bytes, code: Bytes, reason: Bytes :: StatusParts(line, protocol, code, reason, status)
  }

  lemma SplitAt(w: Bytes, c: char) returns (before: Bytes, after: Bytes)
    requires IndexOf(w, c) < |w|
    ensures before == w[..IndexOf(w, c)] && after == w[IndexOf(w, c) + 1..]
    ensures |w| == |before| + 1 + |after| && w[|before|] == c && forall i :: 0 <= i < |before| ==> before[i] != c
  {
    before, after := w[..IndexOf(w, c)], w[IndexOf(w, c) + 1..];
  }

  lemma StatusExact(line: Bytes) returns (protocol: Bytes, code: Bytes, reason: Bytes)
    requires StatusOf(line).Some?
    ensures line == StatusLine(protocol, code, reason) && PyInt(code, 10) == StatusOf(line)
    ensures forall i :: 0 <= i < |protocol| ==> protocol[i] != ' '
    ensures forall i :: 0 <= i < |code| ==> code[i] != ' '
  {
    hide PyInt, IndexOf;
    var tail: Bytes;
    protocol, tail := SplitAt(line, ' ');
    code, reason := SplitAt(tail, ' ');
    WordsJoin(line, protocol, tail);
    WordsJoin(tail, code, reason);
    assert protocol + [' '] + (code + [' '] + reason) == protocol + [' '] + code + [' '] + reason;
  }

  lemma WordsJoin(w: Bytes, before: Bytes, after: Bytes)
    requires |w| == |before| + 1 + |after| && w[|before|] == ' '
    requires before == w[..|before|] && after == w[|before| + 1..]
    ensures w == before + [' '] + after
  {
  }

  /** A status line is accepted exactly if its second word is a number between 100 and 599. */
  lemma StatusAccepted(line: Bytes, status: int)
    ensures StatusOf(line) == Some(status) <==> SaysStatus(line, status)
  {
    hide PyInt, StatusOf, StatusLine;
    if StatusOf(line) == Some(status) {
      StatusInRange(line);
      var protocol, code, reason := StatusExact(line);
      assert StatusParts(line, protocol, code, reason, status);
    }
    if SaysStatus(line, status) {
      var protocol: Bytes, code: Bytes, reason: Bytes :| StatusParts(line, protocol, code, reason, status);
      StatusWordReads(protocol, code, reason);
    }
  }

  lemma StatusInRange(line: Bytes)
    requires StatusOf(line).Some?
    ensures 100 <= StatusOf(line).value <= 599
  {
  }

  /** `w` is a status line, a header block that fits beside it and a body framed as the headers say, then `rest`. */
  ghost predicate IsResponse(w: Bytes, line: Bytes, headers: seq<Header>, body: Bytes, maximum: nat, r: Response,
                             rest: Bytes)
  {
    && w == line + CRLF + (Lines(headers) + body) && NoBreak(line) && |line| < LINE_LIMIT && SaysStatus(line, r.status)
    && (forall i :: 0 <= i < |headers| ==> ValidHeader(headers[i])) && Fits(headers, 100, |line| + 2, {})
    && r.headers == HeaderMap(headers, map[]) && ReadBody(r.headers, body, maximum) == Ok((r.content, rest))
  }

  /** The reader accepts exactly such responses, with this status, content and header map, and leaves the rest. */
  lemma ResponseAccepted(w: Bytes, maximum: nat, r: Response, rest: Bytes)
    ensures ReadResponse(w, maximum) == Ok((r, rest))
       <==> exists line: Bytes, headers, body: Bytes :: IsResponse(w, line, headers, body, maximum, r, rest)
  {
    hide ReadHeaders, ReadBody, StatusOf, TakeLine, SaysStatus, ValidHeader, Fits, Lines, HeaderMap, NoBreak;
    if ReadResponse(w, maximum) == Ok((r, rest)) {
      var line, after := TakeLine(w).value.0, TakeLine(w).value.1;
      LineExact(w);
      StatusAccepted(line, r.status);
      var block := ReadHeaders(after, MAX_HEADER_COUNT, |line| + 2, map[]).value;
      HeadersAccepted(after, MAX_HEADER_COUNT, |line| + 2, map[], block.0, block.1);
      NoKeys();
      var headers :| HeaderBlock(after, MAX_HEADER_COUNT, |line| + 2, map[], headers, block.0, block.1);
      assert IsResponse(w, line, headers, block.1, maximum, r, rest);
    }
    if exists line: Bytes, headers, body: Bytes :: IsResponse(w, line, headers, body, maximum, r, rest) {
      var line: Bytes, headers, body: Bytes :| IsResponse(w, line, headers, body, maximum, r, rest);
      LineReads(line, Lines(headers) + body);
      StatusAccepted(line, r.status);
      NoKeys();
      HeadersRead(headers, body, MAX_HEADER_COUNT, |line| + 2, map[]);
    }
  }

  lemma NoKeys()
    ensures var none: map<string, string> := map[]; none.Keys == {}
  {
  }
}
