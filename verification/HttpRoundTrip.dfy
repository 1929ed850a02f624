/** The response reader undoes the serializer exactly up to its size bound, under all three framings. */
module HttpRoundTrip {
  import opened Wrappers
  import opened Numerals
  import opened HttpMessage

  // ---------------------------------------------------------------- lines

  lemma IndexOfSplit(a: string, c: char, b: string)
    requires forall i :: 0 <= i < |a| ==> a[i] != c
    ensures IndexOf(a + [c] + b, c) == |a|
  {
    assert (a + [c] + b)[|a|] == c;
  }

  /** A line without a newline and within the stream limit is read back, whatever follows. */
  lemma LineReads(line: Bytes, rest: Bytes)
    requires NoBreak(line) && |line| < LINE_LIMIT
    ensures TakeLine(line + CRLF + rest) == Ok((line, rest))
  {
    var w := line + CRLF + rest;
    assert w == (line + ['\r']) + ['\n'] + rest;
    IndexOfSplit(line + ['\r'], '\n', rest);
    assert w[..|line|] == line && w[|line| + 2..] == rest;
  }

  /** The status is the second word of the line, if that is a number between 100 and 599. */
  lemma StatusWordReads(protocol: Bytes, code: Bytes, reason: Bytes)
    requires forall i :: 0 <= i < |protocol| ==> protocol[i] != ' '
    requires forall i :: 0 <= i < |code| ==> code[i] != ' '
    ensures StatusOf(StatusLine(protocol, code, reason))
         == var n := PyInt(code, 10); if n.Some? && 100 <= n.value <= 599 then n else None
  {
    var line := StatusLine(protocol, code, reason);
    hide PyInt;
    assert line == protocol + [' '] + (code + [' '] + reason);
    IndexOfSplit(protocol, ' ', code + [' '] + reason);
    var tail := line[|protocol| + 1..];
    assert tail == code + [' '] + reason;
    IndexOfSplit(code, ' ', reason);
    assert tail[..|code|] == code;
  }

  lemma StatusLineReads(protocol: Bytes, code: Bytes, reason: Bytes, status: nat)
    requires ValidStatus(protocol, code, reason, status)
    ensures StatusOf(StatusLine(protocol, code, reason)) == Some(status)
  {
    hide Writes, PyInt, NoBreak, StatusOf, StatusLine;
    StatusWordReads(protocol, code, reason);
    WritesReads(code, 10, status);
  }

  // ---------------------------------------------------------------- headers

  lemma HeaderReads(h: Header)
    requires ValidHeader(h)
    ensures var line := HeaderLine(h); var colon := IndexOf(line, ':');
            && line != [] && NoBreak(line) && colon < |line|
            && Strip(line[..colon]) == h.name && Strip(line[colon + 1..]) == h.value
  {
    var line := HeaderLine(h);
    var left, right := h.nameLeft + h.name + h.nameRight, h.valueLeft + h.value + h.valueRight;
    assert line == left + [':'] + right;
    NoColon(h);
    IndexOfSplit(left, ':', right);
    assert line[..|left|] == left && line[|left| + 1..] == right;
    hide Strip;
    StripPads(h.nameLeft, h.name, h.nameRight);
    StripPads(h.valueLeft, h.value, h.valueRight);
  }

  lemma NoColon(h: Header)
    requires ValidHeader(h)
    ensures var left := h.nameLeft + h.name + h.nameRight; forall i :: 0 <= i < |left| ==> left[i] != ':'
    ensures NoBreak(HeaderLine(h))
  {
  }

  lemma FoldNonEmpty(s: string)
    requires s != []
    ensures Casefold(s) != []
  {
  }

  lemma FitsTail(headers: seq<Header>, lines: nat, total: nat, taken: set<string>)
    requires headers != [] && lines > 0
    ensures var name := Casefold(headers[0].name);
            Fits(headers, lines, total, taken)
            <==> name !in taken && Fits(headers[1..], lines - 1, total + |HeaderLine(headers[0])| + 2, taken + {name})
  {
    var name, more := Casefold(headers[0].name), headers[1..];
    assert forall i :: 0 <= i < |more| ==> more[i] == headers[i + 1];
    assert forall i :: 1 <= i < |headers| ==> headers[i] == more[i - 1];
  }

  lemma NoLinesNoFit(headers: seq<Header>, total: nat, taken: set<string>)
    ensures !Fits(headers, 0, total, taken)
  {
  }

  lemma FitsDistinct(headers: seq<Header>, lines: nat, total: nat, taken: set<string>)
    requires Fits(headers, lines, total, taken)
    ensures DistinctNames(headers)
  {
  }

  lemma OpenNothing()
    ensures EncodeOpen([]) == []
  {
  }

  lemma FoldNothing()
    ensures Casefold("") == ""
  {
  }

  lemma LinesUnfold(headers: seq<Header>, rest: Bytes)
    requires headers != []
    ensures Lines(headers) + rest == HeaderLine(headers[0]) + CRLF + (Lines(headers[1..]) + rest)
  {
  }

  lemma HeaderStep(h: Header, after: Bytes, lines: nat, total: nat, acc: map<string, string>)
    requires ValidHeader(h) && lines > 0
    ensures var charged, name := total + |HeaderLine(h)| + 2, Casefold(h.name);
            ReadHeaders(HeaderLine(h) + CRLF + after, lines, total, acc)
            == if charged > MAX_HEADER_BYTES || name in acc then Err(ProtocolRejected)
               else ReadHeaders(after, lines - 1, charged, acc[name := h.value])
  {
    hide TakeLine, IndexOf, Strip, Casefold, HeaderLine, Stripped, NoBreak;
    HeaderReads(h);
    FoldNonEmpty(h.name);
    if |HeaderLine(h)| < LINE_LIMIT {
      LineReads(HeaderLine(h), after);
    } else {
      LongLineRejected(HeaderLine(h), after);
    }
  }

  lemma LongLineRejected(line: Bytes, rest: Bytes)
    requires NoBreak(line) && |line| >= LINE_LIMIT
    ensures TakeLine(line + CRLF + rest) == Err(ProtocolRejected)
  {
    assert line + CRLF + rest == (line + ['\r']) + ['\n'] + rest;
    IndexOfSplit(line + ['\r'], '\n', rest);
  }

  /** Reading written headers yields their map exactly when they fit: the reader rejects every other block. */
  lemma {:induction false} HeadersRead(headers: seq<Header>, rest: Bytes, lines: nat, total: nat,
                                       acc: map<string, string>)
    requires forall i :: 0 <= i < |headers| ==> ValidHeader(headers[i])
    ensures ReadHeaders(Lines(headers) + rest, lines, total, acc)
         == if Fits(headers, lines, total, acc.Keys) then Ok((HeaderMap(headers, acc), rest)) else Err(ProtocolRejected)
    decreases |headers|
  {
    hide TakeLine, IndexOf, Strip, Casefold, HeaderLine, ValidHeader, Fits;
    if lines == 0 {
      NoLinesNoFit(headers, total, acc.Keys);
    } else if headers == [] {
      NoHeadersRead(rest, lines, total, acc);
    } else {
      var h, name := headers[0], Casefold(headers[0].name);
      var charged, after := total + |HeaderLine(h)| + 2, Lines(headers[1..]) + rest;
      LinesUnfold(headers, rest);
      HeaderStep(h, after, lines, total, acc);
      FitsTail(headers, lines, total, acc.Keys);
      HeadersRead(headers[1..], rest, lines - 1, charged, acc[name := h.value]);
      assert acc[name := h.value].Keys == acc.Keys + {name};
      FitsCharged(headers, lines, total, acc.Keys);
    }
  }

  lemma FitsCharged(headers: seq<Header>, lines: nat, total: nat, taken: set<string>)
    requires headers != []
    ensures Fits(headers, lines, total, taken) ==> total + |HeaderLine(headers[0])| + 2 <= MAX_HEADER_BYTES
  {
  }

  lemma NoHeadersRead(rest: Bytes, lines: nat, total: nat, acc: map<string, string>)
    requires lines > 0
    ensures ReadHeaders(Lines([]) + rest, lines, total, acc)
         == if Fits([], lines, total, acc.Keys) then Ok((acc, rest)) else Err(ProtocolRejected)
  {
    LineReads([], rest);
    assert Lines([]) + rest == [] + CRLF + rest;
  }

  /** What the header map holds: every header under its folded name, and nothing else. */
  lemma {:induction false} HeaderMapHolds(headers: seq<Header>, acc: map<string, string>)
    requires DistinctNames(headers)
    ensures forall i :: 0 <= i < |headers| ==>
              Casefold(headers[i].name) in HeaderMap(headers, acc)
              && HeaderMap(headers, acc)[Casefold(headers[i].name)] == headers[i].value
    ensures forall n :: (forall i :: 0 <= i < |headers| ==> Casefold(headers[i].name) != n) ==>
              (n in HeaderMap(headers, acc) <==> n in acc) && (n in acc ==> HeaderMap(headers, acc)[n] == acc[n])
  {
    if headers != [] {
      var more, acc' := headers[1..], acc[Casefold(headers[0].name) := headers[0].value];
      assert forall i :: 0 <= i < |more| ==> more[i] == headers[i + 1];
      HeaderMapHolds(more, acc');
      assert forall i :: 1 <= i < |headers| ==> headers[i] == more[i - 1];
    }
  }

  // ---------------------------------------------------------------- chunks

  lemma {:induction false} TrailersRead(trailers: seq<Header>, rest: Bytes)
    requires forall i :: 0 <= i < |trailers| ==> ValidTrailer(trailers[i])
    ensures ReadTrailers(Lines(trailers) + rest) == Ok(rest)
    decreases |trailers|
  {
    var w := Lines(trailers) + rest;
    if trailers == [] {
      assert w == [] + CRLF + rest;
      LineReads([], rest);
    } else {
      var line, after := HeaderLine(trailers[0]), Lines(trailers[1..]) + rest;
      assert w == line + CRLF + after;
      LineReads(line, after);
      assert line[|trailers[0].nameLeft + trailers[0].name + trailers[0].nameRight|] == ':';
      TrailersRead(trailers[1..], rest);
    }
  }

  lemma ValidIsReadable(c: Chunk)
    requires ValidChunk(c)
    ensures ReadableChunk(c)
  {
    WritesPlain(c.size, 16, |c.data|);
    WritesReads(c.size, 16, |c.data|);
    hide PyInt, Writes;
  }

  lemma ChunkLineReads(c: Chunk)
    requires ReadableChunk(c)
    ensures NoBreak(ChunkLine(c)) && ChunkSize(ChunkLine(c)) == Some(|c.data|)
  {
    hide PyInt;
    if c.extension == [] {
      assert ChunkLine(c) == c.size;
      assert c.size[..|c.size|] == c.size;
    } else {
      var more := c.extension[1..];
      assert c.extension == [';'] + more;
      assert ChunkLine(c) == c.size + [';'] + more;
      IndexOfSplit(c.size, ';', more);
      assert ChunkLine(c)[..|c.size|] == c.size;
    }
  }

  lemma ChunkDataReads(data: Bytes, rest: Bytes)
    ensures TakeChunk(data + CRLF + rest, |data|) == Ok((data, rest))
  {
    var w := data + CRLF + rest;
    assert w[..|data|] == data && w[|data| + 2..] == rest;
  }

  /** An announced overflow fails at the size line, whatever follows it. */
  lemma ChunkOverflows(c: Chunk, after: Bytes, maximum: nat, total: nat)
    requires ReadableChunk(c) && total + |c.data| > maximum
    ensures ReadChunks(ChunkLine(c) + CRLF + after, maximum, total) == Err(ResponseTooLarge)
  {
    hide TakeLine, ChunkLine, ChunkSize;
    ChunkLineReads(c);
    ChunkLineShort(c);
    LineReads(ChunkLine(c), after);
  }

  lemma ChunkLineShort(c: Chunk)
    requires ReadableChunk(c)
    ensures |ChunkLine(c)| < LINE_LIMIT
  {
  }

  /** One step of the chunk reader over a written chunk that fits. */
  lemma ChunkStep(c: Chunk, rest: Bytes, maximum: nat, total: nat)
    requires ReadableChunk(c) && c.data != [] && total + |c.data| <= maximum
    ensures var more := ReadChunks(rest, maximum, total + |c.data|);
            ReadChunks(ChunkLine(c) + CRLF + (c.data + CRLF + rest), maximum, total)
            == if more.Err? then more else Ok((c.data + more.value.0, more.value.1))
  {
    hide TakeLine, TakeChunk, ChunkLine, ChunkSize;
    ChunkLineReads(c);
    ChunkLineShort(c);
    LineReads(ChunkLine(c), c.data + CRLF + rest);
    ChunkDataReads(c.data, rest);
  }

  lemma ChunksUnfold(chunks: seq<Chunk>, last: Chunk, trailers: seq<Header>, rest: Bytes)
    requires chunks != []
    ensures EncodeChunks(chunks, last, trailers) + rest
         == ChunkLine(chunks[0]) + CRLF + (chunks[0].data + CRLF + (EncodeChunks(chunks[1..], last, trailers) + rest))
  {
  }

  lemma LastChunkReads(last: Chunk, trailers: seq<Header>, rest: Bytes, maximum: nat, total: nat)
    requires total <= maximum && ReadableChunk(last) && last.data == []
    requires forall i :: 0 <= i < |trailers| ==> ValidTrailer(trailers[i])
    ensures ReadChunks(EncodeChunks([], last, trailers) + rest, maximum, total) == Ok(([], rest))
  {
    hide TakeLine, ChunkSize, ReadTrailers, Lines, ChunkLine, ValidTrailer;
    assert EncodeChunks([], last, trailers) + rest == ChunkLine(last) + CRLF + (Lines(trailers) + rest);
    ChunkLineReads(last);
    ChunkLineShort(last);
    LineReads(ChunkLine(last), Lines(trailers) + rest);
    TrailersRead(trailers, rest);
  }

  /** The chunk reader returns the concatenation of the chunks when it fits the bound, and is too large otherwise. */
  lemma {:induction false} ChunksRead(chunks: seq<Chunk>, last: Chunk, trailers: seq<Header>, rest: Bytes,
                                      maximum: nat, total: nat)
    requires forall i :: 0 <= i < |chunks| ==> ReadableChunk(chunks[i]) && chunks[i].data != []
    requires ReadableChunk(last) && last.data == []
    requires forall i :: 0 <= i < |trailers| ==> ValidTrailer(trailers[i])
    requires total <= maximum
    ensures ReadChunks(EncodeChunks(chunks, last, trailers) + rest, maximum, total)
         == if total + |Joined(chunks)| <= maximum then Ok((Joined(chunks), rest)) else Err(ResponseTooLarge)
    decreases |chunks|
  {
    hide ReadChunks, ReadableChunk, ValidTrailer, ChunkLine, EncodeChunks;
    if chunks == [] {
      LastChunkReads(last, trailers, rest, maximum, total);
    } else {
      var c, after := chunks[0], EncodeChunks(chunks[1..], last, trailers) + rest;
      ChunksUnfold(chunks, last, trailers, rest);
      if total + |c.data| <= maximum {
        ChunkStep(c, after, maximum, total);
        ChunksRead(chunks[1..], last, trailers, rest, maximum, total + |c.data|);
      } else {
        ChunkOverflows(c, c.data + CRLF + after, maximum, total);
      }
    }
  }

  /** The overflow is found at the first chunk that announces it: the answer does not depend on that chunk's data. */
  lemma {:induction false} OverflowStopsAtSizeLine(fitting: seq<Chunk>, c: Chunk, after: Bytes, maximum: nat,
                                                   total: nat)
    requires forall i :: 0 <= i < |fitting| ==> ReadableChunk(fitting[i]) && fitting[i].data != []
    requires ReadableChunk(c)
    requires total + |Joined(fitting)| <= maximum < total + |Joined(fitting)| + |c.data|
    ensures ReadChunks(EncodeOpen(fitting) + (ChunkLine(c) + CRLF + after), maximum, total) == Err(ResponseTooLarge)
    decreases |fitting|
  {
    hide ReadChunks, ReadableChunk, ChunkLine, EncodeOpen;
    if fitting == [] {
      ChunkOverflows(c, after, maximum, total);
      OpenNothing();
      assert [] + (ChunkLine(c) + CRLF + after) == ChunkLine(c) + CRLF + after;
    } else {
      var d, more := fitting[0], EncodeOpen(fitting[1..]) + (ChunkLine(c) + CRLF + after);
      OpenUnfold(fitting, ChunkLine(c) + CRLF + after);
      OverflowStopsAtSizeLine(fitting[1..], c, after, maximum, total + |d.data|);
      ChunkStep(d, more, maximum, total);
    }
  }

  /** Chunks without the closing zero-sized one. */
  function EncodeOpen(chunks: seq<Chunk>): Bytes {
    if chunks == [] then [] else ChunkLine(chunks[0]) + CRLF + chunks[0].data + CRLF + EncodeOpen(chunks[1..])
  }

  lemma OpenUnfold(chunks: seq<Chunk>, rest: Bytes)
    requires chunks != []
    ensures EncodeOpen(chunks) + rest
         == ChunkLine(chunks[0]) + CRLF + (chunks[0].data + CRLF + (EncodeOpen(chunks[1..]) + rest))
  {
  }

  /** Whatever the bytes, an accepted chunked body is within the bound. */
  lemma {:induction false} ChunksBounded(w: Bytes, maximum: nat, total: nat)
    requires total <= maximum && ReadChunks(w, maximum, total).Ok?
    ensures total + |ReadChunks(w, maximum, total).value.0| <= maximum
    decreases |w|
  {
    hide TakeLine, ChunkSize, TakeChunk, ReadTrailers;
    var line, after := TakeLine(w).value.0, TakeLine(w).value.1;
    var size := ChunkSize(line).value;
    if size > 0 {
      var chunk := TakeChunk(after, size).value;
      ChunksBounded(chunk.1, maximum, total + size);
    }
  }

  /** Whatever the bytes, an accepted response has a body within the bound, a legal status and few headers. */
  lemma ResponseBounded(w: Bytes, maximum: nat)
    requires ReadResponse(w, maximum).Ok?
    ensures var r := ReadResponse(w, maximum).value.0;
            |r.content| <= maximum && 100 <= r.status <= 599 && |r.headers| < 100
  {
    hide TakeLine, StatusOf, ReadHeaders, Casefold, ReadChunks, PyInt;
    var line := TakeLine(w).value;
    HeaderCount(line.1, MAX_HEADER_COUNT, |line.0| + 2, map[]);
    var block := ReadHeaders(line.1, MAX_HEADER_COUNT, |line.0| + 2, map[]).value;
    var encoding := Casefold(Get(block.0, "transfer-encoding"));
    if encoding == "chunked" && "content-length" !in block.0 {
      ChunksBounded(block.1, maximum, 0);
    }
  }

  lemma {:induction false} HeaderCount(w: Bytes, lines: nat, total: nat, acc: map<string, string>)
    requires ReadHeaders(w, lines, total, acc).Ok?
    ensures |ReadHeaders(w, lines, total, acc).value.0| < lines + |acc|
    decreases lines
  {
    hide TakeLine, IndexOf, Strip, Casefold;
    var line, rest := TakeLine(w).value.0, TakeLine(w).value.1;
    if line != [] {
      var colon := IndexOf(line, ':');
      var name, value := Casefold(Strip(line[..colon])), Strip(line[colon + 1..]);
      HeaderCount(rest, lines - 1, total + |line| + 2, acc[name := value]);
      MapGrows(acc, name, value);
    }
  }

  lemma MapGrows(m: map<string, string>, k: string, v: string)
    requires k !in m
    ensures |m[k := v]| == |m| + 1
  {
    assert m[k := v].Keys == m.Keys + {k};
    assert |m[k := v].Keys| == |m.Keys| + 1;
  }

  // ---------------------------------------------------------------- whole responses

  lemma NoNameNoEntry(headers: seq<Header>, name: string)
    requires DistinctNames(headers)
    requires forall i :: 0 <= i < |headers| ==> Casefold(headers[i].name) != name
    ensures name !in HeaderMap(headers, map[])
  {
    HeaderMapHolds(headers, map[]);
  }

  lemma EntryAt(headers: seq<Header>, at: nat)
    requires at < |headers| && DistinctNames(headers)
    ensures Casefold(headers[at].name) in HeaderMap(headers, map[])
    ensures HeaderMap(headers, map[])[Casefold(headers[at].name)] == headers[at].value
  {
    HeaderMapHolds(headers, map[]);
  }

  lemma LengthBodyReads(m: map<string, string>, content: Bytes, rest: Bytes, maximum: nat)
    requires "transfer-encoding" !in m && "content-length" in m && Writes(m["content-length"], 10, |content|)
    ensures ReadBody(m, content + rest, maximum)
         == if |content| <= maximum then Ok((content, rest)) else Err(ResponseTooLarge)
  {
    FoldNothing();
    WritesReads(m["content-length"], 10, |content|);
    hide Casefold, PyInt, Writes;
    assert (content + rest)[..|content|] == content && (content + rest)[|content|..] == rest;
  }

  lemma ChunkedBodyReads(m: map<string, string>, w: Bytes, maximum: nat)
    requires "content-length" !in m && "transfer-encoding" in m && Casefold(m["transfer-encoding"]) == "chunked"
    ensures ReadBody(m, w, maximum) == ReadChunks(w, maximum, 0)
  {
    hide Casefold, ReadChunks;
  }

  lemma EofBodyReads(m: map<string, string>, w: Bytes, maximum: nat)
    requires "content-length" !in m && "transfer-encoding" !in m
    ensures ReadBody(m, w, maximum) == if |w| <= maximum then Ok((w, [])) else Err(ResponseTooLarge)
  {
    hide Casefold;
    FoldNothing();
  }

  /** The framing of a message is found in its header map. */
  lemma FramingFound(headers: seq<Header>, f: Framing, at: nat)
    requires Framed(headers, f, at) && DistinctNames(headers)
    ensures var m := HeaderMap(headers, map[]);
            && ("content-length" in m <==> f.ByLength?) && ("transfer-encoding" in m <==> f.Chunked?)
            && (f.ByLength? ==> Writes(m["content-length"], 10, |f.content|))
            && (f.Chunked? ==> Casefold(m["transfer-encoding"]) == "chunked")
  {
    hide Casefold, HeaderMap, DistinctNames, Writes;
    if !f.ToEof? {
      EntryAt(headers, at);
    }
    if !f.ByLength? {
      NoNameNoEntry(headers, "content-length");
    }
    if !f.Chunked? {
      NoNameNoEntry(headers, "transfer-encoding");
    }
  }

  /** The body is found by its framing header, wherever it stands among headers that do not themselves frame. */
  lemma BodyReads(headers: seq<Header>, f: Framing, at: nat, rest: Bytes, maximum: nat)
    requires Framed(headers, f, at) && DistinctNames(headers) && ValidFraming(f)
    requires f.ToEof? ==> rest == []
    ensures ReadBody(HeaderMap(headers, map[]), EncodeBody(f) + rest, maximum)
         == if |Content(f)| <= maximum then Ok((Content(f), rest)) else Err(ResponseTooLarge)
  {
    hide HeaderMap, ReadBody, ReadChunks, DistinctNames, Joined, EncodeChunks, Framed, Writes, ValidChunk,
        ReadableChunk, ValidTrailer, Casefold;
    var m := HeaderMap(headers, map[]);
    FramingFound(headers, f, at);
    match f
    case ByLength(content) =>
      LengthBodyReads(m, content, rest, maximum);
    case Chunked(chunks, last, trailers) =>
      ChunkedBodyReads(m, EncodeChunks(chunks, last, trailers) + rest, maximum);
      forall i | 0 <= i < |chunks| ensures ReadableChunk(chunks[i]) {
        ValidIsReadable(chunks[i]);
      }
      ValidIsReadable(last);
      ChunksRead(chunks, last, trailers, rest, maximum, 0);
    case ToEof(content) =>
      assert content + rest == content;
      EofBodyReads(m, content, maximum);
  }

  /** Whatever follows the headers, the answer is that of the body reader on the map they make. */
  lemma HeaderBlock(protocol: Bytes, code: Bytes, reason: Bytes, status: nat, headers: seq<Header>, body: Bytes,
                    maximum: nat)
    requires ValidStatus(protocol, code, reason, status)
    requires forall k :: 0 <= k < |headers| ==> ValidHeader(headers[k])
    ensures var line, m := StatusLine(protocol, code, reason), HeaderMap(headers, map[]);
            ReadResponse(line + CRLF + Lines(headers) + body, maximum)
            == if !Fits(headers, MAX_HEADER_COUNT, |line| + 2, {}) then Err(ProtocolRejected)
               else match ReadBody(m, body, maximum)
                 case Err(e) => Err(e)
                 case Ok(read) => Ok((Response(status, read.0, m), read.1))
  {
    hide TakeLine, StatusOf, StatusLine, ReadHeaders, ReadBody, HeaderMap, Lines, Fits, ValidHeader, NoBreak, Writes;
    var line := StatusLine(protocol, code, reason);
    assert line + CRLF + Lines(headers) + body == line + CRLF + (Lines(headers) + body);
    StatusLineUnbroken(protocol, code, reason, status);
    LineReads(line, Lines(headers) + body);
    StatusLineReads(protocol, code, reason, status);
    var none: map<string, string> := map[];
    assert none.Keys == {};
    HeadersRead(headers, body, MAX_HEADER_COUNT, |line| + 2, none);
  }

  /**
   The reader inverts the serializer. Over all status lines, well-formed headers with any white space in and around
   them, framings, positions of the framing header and spellings of sizes: the header block is accepted exactly when
   it fits, and then the body exactly when it is within the bound.
  */
  lemma ResponseReads(protocol: Bytes, code: Bytes, reason: Bytes, status: nat, headers: seq<Header>, f: Framing,
                      at: nat, rest: Bytes, maximum: nat)
    requires ValidStatus(protocol, code, reason, status)
    requires forall i :: 0 <= i < |headers| ==> ValidHeader(headers[i])
    requires Framed(headers, f, at) && ValidFraming(f) && (f.ToEof? ==> rest == [])
    ensures var start := StatusLine(protocol, code, reason);
            ReadResponse(Serialize(start, headers, f) + rest, maximum)
            == if !Fits(headers, MAX_HEADER_COUNT, |start| + 2, {}) then Err(ProtocolRejected)
               else if |Content(f)| > maximum then Err(ResponseTooLarge)
               else Ok((Response(status, Content(f), HeaderMap(headers, map[])), rest))
  {
    hide ReadResponse, StatusLine, ReadBody, HeaderMap, Lines, EncodeBody, Fits, ValidHeader, ValidStatus, Framed,
         ValidFraming, Content;
    var line, body := StatusLine(protocol, code, reason), EncodeBody(f) + rest;
    assert Serialize(line, headers, f) + rest == line + CRLF + Lines(headers) + body;
    HeaderBlock(protocol, code, reason, status, headers, body, maximum);
    if Fits(headers, MAX_HEADER_COUNT, |line| + 2, {}) {
      FitsDistinct(headers, MAX_HEADER_COUNT, |line| + 2, {});
      BodyReads(headers, f, at, rest, maximum);
    }
  }

  lemma StatusLineUnbroken(protocol: Bytes, code: Bytes, reason: Bytes, status: nat)
    requires ValidStatus(protocol, code, reason, status)
    ensures NoBreak(StatusLine(protocol, code, reason)) && |StatusLine(protocol, code, reason)| < LINE_LIMIT
  {
    WritesPlain(code, 10, status);
    hide Writes;
  }

  /** A response that names both a length and a nonempty transfer encoding is rejected, not resolved. */
  lemma BothFramingsRejected(protocol: Bytes, code: Bytes, reason: Bytes, status: nat, headers: seq<Header>,
                             body: Bytes, maximum: nat, i: nat, j: nat)
    requires ValidStatus(protocol, code, reason, status)
    requires forall k :: 0 <= k < |headers| ==> ValidHeader(headers[k])
    requires i < |headers| && j < |headers| && Casefold(headers[i].name) == "content-length"
    requires Casefold(headers[j].name) == "transfer-encoding" && headers[j].value != []
    ensures ReadResponse(StatusLine(protocol, code, reason) + CRLF + Lines(headers) + body, maximum)
         == Err(ProtocolRejected)
  {
    hide ReadResponse, ReadBody, StatusLine, HeaderMap, Lines, Fits, ValidHeader, Casefold, ValidStatus, DistinctNames;
    HeaderBlock(protocol, code, reason, status, headers, body, maximum);
    var line := StatusLine(protocol, code, reason);
    if Fits(headers, MAX_HEADER_COUNT, |line| + 2, {}) {
      FitsDistinct(headers, MAX_HEADER_COUNT, |line| + 2, {});
      BothNamed(headers, body, maximum, i, j);
    }
  }

  lemma BothNamed(headers: seq<Header>, body: Bytes, maximum: nat, i: nat, j: nat)
    requires DistinctNames(headers) && i < |headers| && j < |headers|
    requires Casefold(headers[i].name) == "content-length"
    requires Casefold(headers[j].name) == "transfer-encoding" && headers[j].value != []
    ensures ReadBody(HeaderMap(headers, map[]), body, maximum) == Err(ProtocolRejected)
  {
    hide Casefold, HeaderMap, DistinctNames, ReadChunks, PyInt;
    EntryAt(headers, i);
    EntryAt(headers, j);
    FoldNonEmpty(headers[j].value);
  }

  /** A length that is no numeral, a negative one, or an encoding other than chunked is refused. */
  lemma BadFramingRejected(headers: seq<Header>, body: Bytes, maximum: nat, i: nat)
    requires DistinctNames(headers) && i < |headers|
    requires forall k :: 0 <= k < |headers| && k != i ==> !NamesFraming(headers[k])
    requires || (Casefold(headers[i].name) == "content-length"
                 && (PyInt(headers[i].value, 10) == None || PyInt(headers[i].value, 10).value < 0))
             || (Casefold(headers[i].name) == "transfer-encoding"
                 && headers[i].value != [] && Casefold(headers[i].value) != "chunked")
    ensures ReadBody(HeaderMap(headers, map[]), body, maximum) == Err(ProtocolRejected)
  {
    hide Casefold, HeaderMap, DistinctNames, PyInt, ReadChunks;
    EntryAt(headers, i);
    FoldNothing();
    if Casefold(headers[i].name) == "content-length" {
      NoNameNoEntry(headers, "transfer-encoding");
    } else {
      NoNameNoEntry(headers, "content-length");
      FoldNonEmpty(headers[i].value);
    }
  }
}
