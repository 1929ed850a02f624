/**
 The bounded response reader of the pinned HTTPS fetcher, over a stream that delivers its bytes in arbitrary pieces.
*/
module HttpReader {
  import opened Wrappers
  import opened Numerals
  import opened HttpMessage

  /** `r` with `before` in front of the decoded body. */
  function After(before: Bytes, r: Result<(Bytes, Bytes), FetchError>): Result<(Bytes, Bytes), FetchError> {
    if r.Err? then r else Ok((before + r.value.0, r.value.1))
  }

  lemma AfterNothing(r: Result<(Bytes, Bytes), FetchError>)
    ensures After([], r) == r
  {
    if r.Ok? {
      assert [] + r.value.0 == r.value.0;
    }
  }

  lemma AfterMore(before: Bytes, chunk: Bytes, r: Result<(Bytes, Bytes), FetchError>)
    ensures After(before + chunk, r) == After(before, After(chunk, r))
  {
    if r.Ok? {
      assert before + chunk + r.value.0 == before + (chunk + r.value.0);
    }
  }

  /** `line` is a chunk-size line that `total` decoded bytes leave no room for. */
  predicate Overflows(line: Bytes, maximum: nat, total: nat) {
    var size := ChunkSize(line);
    size.Some? && (size.value < 0 || total + size.value > maximum)
  }

  /** Taking a chunk is reading its bytes and then a two-byte terminator. */
  lemma ChunkTaken(w: Bytes, size: nat)
    requires size <= |w|
    ensures TakeChunk(w, size) == if 2 <= |w[size..]| && w[size..][..2] == CRLF then Ok((w[..size], w[size..][2..]))
                                  else Err(ProtocolRejected)
  {
    if 2 <= |w[size..]| {
      assert w[size..][..2] == [w[size], w[size + 1]];
      assert w[size..][2..] == w[size + 2..];
    }
  }

  lemma ChunkMissing(w: Bytes, size: nat)
    requires size > |w|
    ensures TakeChunk(w, size) == Err(ProtocolRejected)
  {
  }

  class StreamReader {
    const wire: Bytes
    var pos: nat

    ghost predicate Valid()
      reads this
    {
      pos <= |wire|
    }

    function Rest(): Bytes
      requires Valid()
      reads this
    {
      wire[pos..]
    }

    constructor (bytes: Bytes)
      ensures Valid() && wire == bytes && Rest() == bytes
    {
      wire, pos := bytes, 0;
    }

    method ReadResponseLine() returns (r: Result<Bytes, FetchError>)
      requires Valid()
      modifies this
      ensures Valid() && old(pos) <= pos
      ensures match TakeLine(old(Rest()))
              case Ok(taken) => r == Ok(taken.0) && Rest() == taken.1
              case Err(e) => r == Err(e)
    {
      ghost var w := Rest();
      var k := pos;
      while k < |wire| && wire[k] != '\n'
        invariant pos <= k <= |wire|
        invariant forall i :: pos <= i < k ==> wire[i] != '\n'
      {
        k := k + 1;
      }
      assert IndexOf(w, '\n') == k - pos by {
        assert forall i :: 0 <= i < k - pos ==> w[i] == wire[pos + i];
        assert k < |wire| ==> w[k - pos] == wire[k];
      }
      if k == |wire| || k - pos > LINE_LIMIT {
        return Err(ProtocolRejected);
      }
      if k == pos || wire[k - 1] != '\r' {
        return Err(ProtocolRejected);
      }
      r := Ok(wire[pos..k - 1]);
      assert wire[pos..k - 1] == w[..k - 1 - pos] && wire[k + 1..] == w[k + 1 - pos..];
      pos := k + 1;
    }

    method ReadExactly(n: nat) returns (r: Option<Bytes>)
      requires Valid()
      modifies this
      ensures Valid() && old(pos) <= pos
      ensures if n <= |old(Rest())| then r == Some(old(Rest())[..n]) && Rest() == old(Rest())[n..] else r == None
    {
      if n > |wire| - pos {
        pos := |wire|;
        return None;
      }
      assert wire[pos..pos + n] == wire[pos..][..n] && wire[pos + n..] == wire[pos..][n..];
      r := Some(wire[pos..pos + n]);
      pos := pos + n;
    }

    /** Some of the bytes that follow, at least one unless the stream has ended; how many is up to the network. */
    method Read(n: nat) returns (chunk: Bytes)
      requires Valid() && n > 0
      modifies this
      ensures Valid() && |chunk| <= n && pos == old(pos) + |chunk| && chunk == wire[old(pos)..pos]
      ensures chunk == [] <==> old(Rest()) == []
    {
      if pos == |wire| {
        return [];
      }
      var count: nat :| 1 <= count <= n && count <= |wire| - pos by {
        assert 1 <= n && 1 <= |wire| - pos;
      }
      chunk := wire[pos..pos + count];
      pos := pos + count;
    }

    /** The answer is a function of the bytes, however they were cut; at most one byte beyond the bound is consumed. */
    method ReadUntilEof(maximum: nat) returns (r: Result<Bytes, FetchError>)
      requires Valid()
      modifies this
      ensures Valid() && old(pos) <= pos <= old(pos) + maximum + 1
      ensures r == if |old(Rest())| <= maximum then Ok(old(Rest())) else Err(ResponseTooLarge)
      ensures r.Ok? ==> Rest() == []
    {
      var content: Bytes, total: nat := [], 0;
      while true
        invariant Valid() && pos == old(pos) + total && total <= maximum
        invariant content == wire[old(pos)..pos]
        decreases |wire| - pos
      {
        var chunk := Read(if READ_SIZE < maximum - total + 1 then READ_SIZE else maximum - total + 1);
        if chunk == [] {
          assert pos == |wire| && content == old(Rest());
          return Ok(content);
        }
        total := total + |chunk|;
        if total > maximum {
          return Err(ResponseTooLarge);
        }
        content := content + chunk;
      }
    }

    method SkipTrailers() returns (r: Result<(), FetchError>)
      requires Valid()
      modifies this
      ensures Valid() && old(pos) <= pos
      ensures match ReadTrailers(old(Rest()))
              case Ok(rest) => r == Ok(()) && Rest() == rest
              case Err(e) => r == Err(e)
      ensures r.Err? ==> r.error == ProtocolRejected
    {
      while true
        invariant Valid() && old(pos) <= pos
        invariant ReadTrailers(Rest()) == ReadTrailers(old(Rest()))
        decreases |wire| - pos
      {
        ghost var before := Rest();
        var trailer := ReadResponseLine();
        if trailer.Err? {
          return Err(ProtocolRejected);
        }
        assert |Rest()| < |before|;
        if trailer.value == [] {
          return Ok(());
        }
        if IndexOf(trailer.value, ':') == |trailer.value| {
          return Err(ProtocolRejected);
        }
      }
    }

    /** On an announced overflow the reader has consumed nothing beyond the offending size line. */
    method ReadChunkedBody(maximum: nat) returns (r: Result<Bytes, FetchError>)
      requires Valid()
      modifies this
      ensures Valid() && old(pos) <= pos
      ensures match ReadChunks(old(Rest()), maximum, 0)
              case Ok(body) => r == Ok(body.0) && Rest() == body.1
              case Err(e) => r == Err(e)
      ensures r == Err(ResponseTooLarge) ==>
                exists start: nat, total: nat ::
                  && old(pos) <= start <= |wire| && total <= maximum
                  && TakeLine(wire[start..]).Ok? && TakeLine(wire[start..]).value.1 == Rest()
                  && Overflows(TakeLine(wire[start..]).value.0, maximum, total)
    {
      hide TakeLine, ChunkSize, TakeChunk, ReadTrailers;
      var content: Bytes, total: nat := [], 0;
      AfterNothing(ReadChunks(Rest(), maximum, 0));
      while true
        invariant Valid() && old(pos) <= pos
        invariant total == |content| <= maximum
        invariant After(content, ReadChunks(Rest(), maximum, total)) == ReadChunks(old(Rest()), maximum, 0)
        decreases |wire| - pos
      {
        ghost var start, before := pos, Rest();
        var line := ReadResponseLine();
        if line.Err? {
          return Err(ProtocolRejected);
        }
        var size := ChunkSize(line.value);
        if size == None {
          return Err(ProtocolRejected);
        }
        if size.value < 0 || total + size.value > maximum {
          assert TakeLine(wire[start..]).value.1 == Rest()
                   && Overflows(TakeLine(wire[start..]).value.0, maximum, total);
          return Err(ResponseTooLarge);
        }
        if size.value == 0 {
          var trailers := SkipTrailers();
          if trailers.Err? {
            return Err(trailers.error);
          }
          assert content + [] == content;
          return Ok(content);
        }
        ghost var after := Rest();
        var chunk := ReadExactly(size.value);
        if chunk == None {
          ChunkMissing(after, size.value);
          return Err(ProtocolRejected);
        }
        var terminator := ReadExactly(2);
        ChunkTaken(after, size.value);
        if terminator == None || terminator.value != CRLF {
          return Err(ProtocolRejected);
        }
        AfterMore(content, chunk.value, ReadChunks(Rest(), maximum, total + size.value));
        content := content + chunk.value;
        total := total + size.value;
      }
    }

    method ReadHeaderBlock(statusLine: Bytes) returns (r: Result<map<string, string>, FetchError>)
      requires Valid()
      modifies this
      ensures Valid() && old(pos) <= pos
      ensures match ReadHeaders(old(Rest()), MAX_HEADER_COUNT, |statusLine| + 2, map[])
              case Ok(block) => r == Ok(block.0) && Rest() == block.1
              case Err(e) => r == Err(e)
    {
      hide TakeLine, IndexOf, Strip, Casefold;
      var headers: map<string, string> := map[];
      var total: nat := |statusLine| + 2;
      for count := 0 to MAX_HEADER_COUNT
        invariant Valid() && old(pos) <= pos
        invariant ReadHeaders(Rest(), MAX_HEADER_COUNT - count, total, headers)
               == ReadHeaders(old(Rest()), MAX_HEADER_COUNT, |statusLine| + 2, map[])
      {
        var taken := ReadResponseLine();
        if taken.Err? {
          return Err(ProtocolRejected);
        }
        var line := taken.value;
        total := total + |line| + 2;
        if total > MAX_HEADER_BYTES {
          return Err(ProtocolRejected);
        }
        if line == [] {
          return Ok(headers);
        }
        var colon := IndexOf(line, ':');
        if colon == |line| {
          return Err(ProtocolRejected);
        }
        ColonWithin(line);
        var name := Casefold(Strip(line[..colon]));
        var value := Strip(line[colon + 1..]);
        if name == [] || name in headers {
          return Err(ProtocolRejected);
        }
        headers := headers[name := value];
      }
      return Err(ProtocolRejected);
    }

    /** The reader agrees with its meaning on every byte stream, and leaves exactly the bytes it did not need. */
    method ReadHttpResponse(maximum: nat) returns (r: Result<Response, FetchError>)
      requires Valid()
      modifies this
      ensures Valid() && old(pos) <= pos
      ensures match ReadResponse(old(Rest()), maximum)
              case Ok(answer) => r == Ok(answer.0) && Rest() == answer.1
              case Err(e) => r == Err(e)
    {
      hide TakeLine, StatusOf, ReadHeaders, Casefold, ReadChunks, PyInt;
      var statusLine := ReadResponseLine();
      if statusLine.Err? {
        return Err(ProtocolRejected);
      }
      var status := StatusOf(statusLine.value);
      if status == None {
        return Err(ProtocolRejected);
      }
      var block := ReadHeaderBlock(statusLine.value);
      if block.Err? {
        return Err(block.error);
      }
      var headers := block.value;
      var encoding := Casefold(Get(headers, "transfer-encoding"));
      var body: Result<Bytes, FetchError>;
      if encoding != "" && "content-length" in headers {
        return Err(ProtocolRejected);
      }
      if encoding != "" {
        if encoding != "chunked" {
          return Err(ProtocolRejected);
        }
        body := ReadChunkedBody(maximum);
      } else if "content-length" in headers {
        var declared := PyInt(headers["content-length"], 10);
        if declared == None || declared.value < 0 {
          return Err(ProtocolRejected);
        }
        if declared.value > maximum {
          return Err(ResponseTooLarge);
        }
        var exact := ReadExactly(declared.value);
        body := if exact == None then Err(ProtocolRejected) else Ok(exact.value);
      } else {
        body := ReadUntilEof(maximum);
      }
      if body.Err? {
        return Err(body.error);
      }
      return Ok(Response(status.value, body.value, headers));
    }
  }

  lemma ColonWithin(line: string)
    ensures IndexOf(line, ':') <= |line|
  {
  }
}
