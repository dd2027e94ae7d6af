/** The TCP side: reading carriage-return frames and one PJLink exchange over a fresh connection. */
module Southbound {
  import opened Domain
  import opened Errors
  import opened Text

  const MAX_FRAME_BYTES := 1024
  const CR := '\r'

  /** What one single-byte read returns: a byte or none, with or without an error. */
  datatype Read = Read(byte: Option<char>, error: Option<Error>)

  /** A connection: the reads it will answer, then end of file; and what was written to it. */
  class Conn {
    var incoming: seq<Read>
    var written: seq<Bytes>
    const writeError: Option<Error>

    constructor (incoming: seq<Read>, writeError: Option<Error>)
      ensures this.incoming == incoming && this.written == [] && this.writeError == writeError
    {
      this.incoming, this.written, this.writeError := incoming, [], writeError;
    }

    method ReadOne() returns (r: Read)
      modifies this`incoming
      ensures old(incoming) == [] ==> r == Read(None, Some(EOF)) && incoming == []
      ensures old(incoming) != [] ==> r == old(incoming)[0] && incoming == old(incoming)[1..]
    {
      if incoming == [] {
        return Read(None, Some(EOF));
      }
      r, incoming := incoming[0], incoming[1..];
    }

    method Write(payload: Bytes) returns (error: Option<Error>)
      modifies this`written
      ensures error == writeError && written == old(written) + [payload]
    {
      written := written + [payload];
      error := writeError;
    }
  }

  // ---------- reading one frame ----------

  function ByteOf(r: Read): Bytes {
    if r.byte.Some? then [r.byte.value] else ""
  }

  /** The bytes a run of reads carries. */
  function BytesOf(script: seq<Read>): Bytes {
    if script == [] then "" else ByteOf(script[0]) + BytesOf(script[1..])
  }

  /** The byte stream a reader sees: everything up to and including the first failing read. */
  function Stream(script: seq<Read>): Bytes {
    if script == [] then ""
    else if script[0].error.Some? then ByteOf(script[0])
    else ByteOf(script[0]) + Stream(script[1..])
  }

  /** A stretch of bytes that ends at its only carriage return. */
  predicate IsFrame(s: Bytes) {
    s != "" && s[|s| - 1] == CR && forall i :: 0 <= i < |s| - 1 ==> s[i] != CR
  }

  /** The stream holds a carriage return among its first `maxBytes` bytes. */
  predicate HoldsFrame(s: Bytes, maxBytes: int) {
    exists i :: 0 <= i < |s| && i < maxBytes && s[i] == CR
  }

  datatype FrameRead = FrameRead(buf: Bytes, error: Option<Error>, rest: seq<Read>)

  function Overlong(maxBytes: int): Error {
    Wrap("", ERR_NETWORK, ": PJLink frame exceeded " + Itoa(maxBytes) + " bytes")
  }

  function Incomplete(buf: Bytes, error: Error): Error {
    Categorize(error, if buf != "" then "incomplete frame read" else "read failed")
  }

  function ReadFrame(script: seq<Read>, buf: Bytes, maxBytes: int): FrameRead
    decreases |script|
  {
    if |buf| >= maxBytes then FrameRead("", Some(Overlong(maxBytes)), script)
    else if script == [] then FrameRead(buf, Some(Incomplete(buf, EOF)), [])
    else
      var grown := buf + ByteOf(script[0]);
      if script[0].byte == Some(CR) then FrameRead(grown, None, script[1..])
      else if script[0].error.Some? then FrameRead(grown, Some(Incomplete(grown, script[0].error.value)), script[1..])
      else ReadFrame(script[1..], grown, maxBytes)
  }

  method ReadUntilCR(conn: Conn, maxBytes: int) returns (buf: Bytes, error: Option<Error>)
    modifies conn`incoming
    ensures FrameRead(buf, error, conn.incoming) == ReadFrame(old(conn.incoming), "", maxBytes)
  {
    buf := "";
    while |buf| < maxBytes
      invariant ReadFrame(conn.incoming, buf, maxBytes) == ReadFrame(old(conn.incoming), "", maxBytes)
      decreases |conn.incoming|
    {
      var one := conn.ReadOne();
      assert one.byte.None? ==> buf + ByteOf(one) == buf;
      if one.byte.Some? {
        buf := buf + [one.byte.value];
        if one.byte.value == CR {
          return buf, None;
        }
      }
      if one.error.Some? {
        return buf, Some(Incomplete(buf, one.error.value));
      }
    }
    return "", Some(Overlong(maxBytes));
  }

  /** Reading from `script` with `buf` already read succeeds exactly if the stream holds a frame; and
      then it gives the stream up to the first carriage return, having used up `used` reads, those
      that carry its bytes, the last one carrying the return. */
  ghost predicate ReadsFrame(script: seq<Read>, buf: Bytes, maxBytes: int, used: nat)
    requires used <= |script|
  {
    var f := ReadFrame(script, buf, maxBytes);
    var d := buf + Stream(script);
    && (f.error.None? <==> HoldsFrame(d, maxBytes))
    && (f.error.None? ==>
          && IsFrame(f.buf) && f.buf <= d
          && f.rest == script[used..] && buf + BytesOf(script[..used]) == f.buf
          && used > 0 && script[used - 1].byte == Some(CR))
  }

  /** Reading a frame against the stream. It succeeds exactly when the stream has a carriage return
      among its first `maxBytes` bytes; the frame is then the stream up to the first of them, and
      the reads used up are those that carry its bytes, the last one carrying the return. */
  lemma FrameSucceeds(script: seq<Read>, maxBytes: int) returns (used: nat)
    ensures used <= |script|
    ensures var f := ReadFrame(script, "", maxBytes);
            var d := Stream(script);
            && (f.error.None? <==> HoldsFrame(d, maxBytes))
            && (f.error.None? ==>
                  && IsFrame(f.buf) && f.buf <= d
                  && f.rest == script[used..] && BytesOf(script[..used]) == f.buf
                  && used > 0 && script[used - 1].byte == Some(CR))
  {
    used := FrameSucceedsFrom(script, "", maxBytes);
    assert "" + Stream(script) == Stream(script);
    assert "" + BytesOf(script[..used]) == BytesOf(script[..used]);
  }

  lemma {:induction false} FrameSucceedsFrom(script: seq<Read>, buf: Bytes, maxBytes: int) returns (used: nat)
    requires CR !in buf
    ensures used <= |script| && ReadsFrame(script, buf, maxBytes, used)
    decreases |script|
  {
    used := 0;
    var d := buf + Stream(script);
    if |buf| >= maxBytes {
      assert forall i :: 0 <= i < |d| && i < maxBytes ==> d[i] == buf[i];
    } else if script == [] {
      assert d == buf;
    } else if script[0].byte == Some(CR) {
      used := 1;
      assert d[|buf|] == CR && HoldsFrame(d, maxBytes);
      assert script[..1][1..] == [];
    } else if script[0].error.None? {
      var n := FrameSucceedsFrom(script[1..], buf + ByteOf(script[0]), maxBytes);
      FrameGoesOn(script, buf, maxBytes, n);
      used := 1 + n;
    } else {
      assert d == buf + ByteOf(script[0]) && !HoldsFrame(d, maxBytes);
    }
  }

  /** One more read before: neither a return nor an error. */
  lemma FrameGoesOn(script: seq<Read>, buf: Bytes, maxBytes: int, n: nat)
    requires script != [] && script[0].byte != Some(CR) && script[0].error.None? && |buf| < maxBytes
    requires n <= |script[1..]| && ReadsFrame(script[1..], buf + ByteOf(script[0]), maxBytes, n)
    ensures ReadsFrame(script, buf, maxBytes, 1 + n)
  {
    var byte, later := ByteOf(script[0]), script[1..];
    assert script[1..][n..] == script[1 + n..];
    assert script[..1 + n][1..] == later[..n];
    Reassociate(buf, byte, Stream(later));
    Reassociate(buf, byte, BytesOf(later[..n]));
  }

  /** A failing read is retryable, and hands back either nothing, the stream being too long for a
      frame, or every byte the connection delivered. */
  lemma {:induction false} FrameFails(script: seq<Read>, buf: Bytes, maxBytes: int)
    requires ReadFrame(script, buf, maxBytes).error.Some? && |buf| <= maxBytes
    ensures var f := ReadFrame(script, buf, maxBytes);
            && Classify(f.error.value) == Retryable
            && ((f.buf == "" && |buf + Stream(script)| >= maxBytes) || f.buf == buf + Stream(script))
    decreases |script|
  {
    if |buf| >= maxBytes {
      WrapKeepsClass("", ERR_NETWORK, ": PJLink frame exceeded " + Itoa(maxBytes) + " bytes");
    } else if script == [] {
      CategorizeMatchesAll(EOF, if buf != "" then "incomplete frame read" else "read failed");
      assert buf + Stream(script) == buf;
    } else {
      var grown := buf + ByteOf(script[0]);
      if script[0].error.Some? {
        CategorizeMatchesAll(script[0].error.value, if grown != "" then "incomplete frame read" else "read failed");
      } else {
        assert buf + Stream(script) == grown + Stream(script[1..]);
        FrameFails(script[1..], grown, maxBytes);
      }
    }
  }

  /** Stream splitting: however a stream is chopped into reads, if it begins with a frame that fits,
      reading yields that frame; and if more follows, the rest of the stream is left for the next read. */
  lemma FrameSplits(script: seq<Read>, frame: Bytes, more: Bytes, maxBytes: int)
    requires IsFrame(frame) && |frame| <= maxBytes
    requires Stream(script) == frame + more
    ensures var f := ReadFrame(script, "", maxBytes);
            f.error.None? && f.buf == frame && (more != "" ==> Stream(f.rest) == more)
  {
    FrameSplitsFrom(script, "", frame, more, maxBytes);
  }

  lemma {:induction false} FrameSplitsFrom(script: seq<Read>, buf: Bytes, left: Bytes, more: Bytes, maxBytes: int)
    requires IsFrame(left) && |buf| + |left| <= maxBytes
    requires Stream(script) == left + more
    ensures var f := ReadFrame(script, buf, maxBytes);
            f.error.None? && f.buf == buf + left && (more != "" ==> Stream(f.rest) == more)
    decreases |script|
  {
    var b := ByteOf(script[0]);
    if b == "" {
      if script[0].error.None? {
        assert Stream(script) == Stream(script[1..]);
        assert buf + b == buf;
        FrameSplitsFrom(script[1..], buf, left, more, maxBytes);
      }
    } else {
      assert b == [left[0]] == left[..1] by {
        assert Stream(script)[0] == left[0];
      }
      assert left[1..] + more == (left + more)[1..];
      assert left[0] != CR ==> |left| >= 2;
      assert script[0].error.None? ==> Stream(script)[1..] == Stream(script[1..]);
      if left[0] == CR {
        assert |left| == 1;
        assert left == b;
        assert left[1..] + more == more;
      } else if script[0].error.None? {
        FrameSplitsFrom(script[1..], buf + b, left[1..], more, maxBytes);
        assert buf + left == buf + b + left[1..];
      }
    }
  }

  /** A frame read from reads that carry the start of a stream is the stream's first frame, and the
      reads that are left carry the start of what follows it. */
  lemma NextFrame(script: seq<Read>, frame: Bytes, more: Bytes)
    requires IsFrame(frame) && BytesOf(script) <= frame + more
    requires ReadFrame(script, "", MAX_FRAME_BYTES).error.None?
    ensures var f := ReadFrame(script, "", MAX_FRAME_BYTES);
            f.buf == frame && BytesOf(f.rest) <= more
  {
    TakesFrame(script);
    var f := ReadFrame(script, "", MAX_FRAME_BYTES);
    FirstFrame(f.buf, frame, BytesOf(f.rest), more);
  }

  lemma TakesFrame(script: seq<Read>)
    requires ReadFrame(script, "", MAX_FRAME_BYTES).error.None?
    ensures var f := ReadFrame(script, "", MAX_FRAME_BYTES);
            IsFrame(f.buf) && BytesOf(script) == f.buf + BytesOf(f.rest)
  {
    var used := FrameSucceeds(script, MAX_FRAME_BYTES);
    BytesSplit(script, used);
  }

  lemma {:induction false} BytesSplit(script: seq<Read>, n: nat)
    requires n <= |script|
    ensures BytesOf(script) == BytesOf(script[..n]) + BytesOf(script[n..])
  {
    if n == 0 {
      assert script[..0] == [] && script[0..] == script;
    } else {
      var later := script[1..];
      assert script[..n][1..] == later[..n - 1] && later[n - 1..] == script[n..];
      BytesSplit(later, n - 1);
      Reassociate(ByteOf(script[0]), BytesOf(later[..n - 1]), BytesOf(script[n..]));
    }
  }

  /** A stream has only one first frame. */
  lemma FirstFrame(one: Bytes, two: Bytes, afterOne: Bytes, afterTwo: Bytes)
    requires IsFrame(one) && IsFrame(two) && one + afterOne <= two + afterTwo
    ensures one == two && afterOne <= afterTwo
  {
    var longer, shorter := two + afterTwo, one + afterOne;
    assert one <= shorter <= longer;
    FrameEnd(one, longer);
    FrameEnd(two, longer);
    assert one == longer[..|one|] && two == longer[..|two|];
    assert afterOne == shorter[|one|..] && afterTwo == longer[|two|..];
  }

  lemma FrameEnd(frame: Bytes, stream: Bytes)
    requires IsFrame(frame) && frame <= stream
    ensures stream[|frame| - 1] == CR && forall i :: 0 <= i < |frame| - 1 ==> stream[i] != CR
  {
    assert forall i :: 0 <= i < |frame| ==> stream[i] == frame[i];
  }

  // ---------- one exchange ----------

  const GREETING_PREFIX := "PJLINK"

  datatype Exchanged = Exchanged(result: Result<Bytes, Error>, written: seq<Bytes>)

  function Exchange(script: seq<Read>, writeError: Option<Error>, payload: Bytes): Exchanged {
    var greeting := ReadFrame(script, "", MAX_FRAME_BYTES);
    if greeting.error.Some? then
      Exchanged(Err(Categorize(greeting.error.value, "PJLink greeting read failed")), [])
    else
      var text := TrimSpace(greeting.buf);
      if !(GREETING_PREFIX <= text) then
        Exchanged(Err(Wrap("", ERR_NETWORK, ": unexpected PJLink greeting " + text)), [])
      else if writeError.Some? then
        Exchanged(Err(Categorize(writeError.value, "write failed")), [payload])
      else
        var response := ReadFrame(greeting.rest, "", MAX_FRAME_BYTES);
        if response.error.Some? then
          Exchanged(Err(Categorize(response.error.value, "PJLink response read failed")), [payload])
        else
          Exchanged(Ok(response.buf), [payload])
  }

  method SendPJLinkCommand(conn: Conn, payload: Bytes) returns (result: Result<Bytes, Error>)
    requires conn.written == []
    modifies conn
    ensures Exchanged(result, conn.written) == Exchange(old(conn.incoming), conn.writeError, payload)
  {
    var greeting, greetingError := ReadUntilCR(conn, MAX_FRAME_BYTES);
    if greetingError.Some? {
      return Err(Categorize(greetingError.value, "PJLink greeting read failed"));
    }
    var greetingText := TrimSpace(greeting);
    if !(GREETING_PREFIX <= greetingText) {
      return Err(Wrap("", ERR_NETWORK, ": unexpected PJLink greeting " + greetingText));
    }
    var writeError := conn.Write(payload);
    if writeError.Some? {
      return Err(Categorize(writeError.value, "write failed"));
    }
    var response, responseError := ReadUntilCR(conn, MAX_FRAME_BYTES);
    if responseError.Some? {
      return Err(Categorize(responseError.value, "PJLink response read failed"));
    }
    return Ok(response);
  }

  /** The reply is the second frame of the stream and the greeting its first, for every chopping of
      the stream; the payload goes out once, between the two. */
  lemma ExchangeSplitsStream(
    script: seq<Read>, payload: Bytes, greeting: Bytes, response: Bytes, more: Bytes)
    requires IsFrame(greeting) && |greeting| <= MAX_FRAME_BYTES
    requires IsFrame(response) && |response| <= MAX_FRAME_BYTES
    requires Stream(script) == greeting + (response + more)
    ensures Exchange(script, None, payload) ==
            if GREETING_PREFIX <= TrimSpace(greeting) then Exchanged(Ok(response), [payload])
            else Exchanged(Err(Wrap("", ERR_NETWORK, ": unexpected PJLink greeting " + TrimSpace(greeting))), [])
  {
    FrameSplits(script, greeting, response + more, MAX_FRAME_BYTES);
    FrameSplits(ReadFrame(script, "", MAX_FRAME_BYTES).rest, response, more, MAX_FRAME_BYTES);
  }

  /** The greeting is a frame that fits, with the prefix. */
  ghost predicate Greets(script: seq<Read>) {
    HoldsFrame(Stream(script), MAX_FRAME_BYTES) &&
    GREETING_PREFIX <= TrimSpace(ReadFrame(script, "", MAX_FRAME_BYTES).buf)
  }

  /** The payload is written exactly when the device greets; and the exchange succeeds exactly when,
      besides, the write succeeds and what is left of the stream holds a second frame. */
  lemma ExchangeExactly(script: seq<Read>, writeError: Option<Error>, payload: Bytes)
    ensures var e := Exchange(script, writeError, payload);
            var rest := ReadFrame(script, "", MAX_FRAME_BYTES).rest;
            && e.written == (if Greets(script) then [payload] else [])
            && (e.result.Ok? <==> Greets(script) && writeError.None? && HoldsFrame(Stream(rest), MAX_FRAME_BYTES))
            && (e.result.Ok? ==> e.result.value == ReadFrame(rest, "", MAX_FRAME_BYTES).buf)
  {
    var _ := FrameSucceeds(script, MAX_FRAME_BYTES);
    var _ := FrameSucceeds(ReadFrame(script, "", MAX_FRAME_BYTES).rest, MAX_FRAME_BYTES);
  }

  /** How one attempt to reach a device goes: dialing, arming the deadline, then the connection. */
  datatype Attempt = Attempt(dial: Option<Error>, deadline: Option<Error>, script: seq<Read>, write: Option<Error>)

  method SendCommand(attempt: Attempt, payload: Bytes) returns (result: Result<Bytes, Error>)
    ensures result == Sent(attempt, payload)
  {
    if attempt.dial.Some? {
      return Err(Categorize(attempt.dial.value, "dial failed"));
    }
    if attempt.deadline.Some? {
      return Err(Wrap("failed to set socket deadline: ", attempt.deadline.value, ""));
    }
    var conn := new Conn(attempt.script, attempt.write);
    result := SendPJLinkCommand(conn, payload);
  }

  function Sent(attempt: Attempt, payload: Bytes): Result<Bytes, Error> {
    if attempt.dial.Some? then Err(Categorize(attempt.dial.value, "dial failed"))
    else if attempt.deadline.Some? then Err(Wrap("failed to set socket deadline: ", attempt.deadline.value, ""))
    else Exchange(attempt.script, attempt.write, payload).result
  }

  /** A send succeeds exactly when dialing, arming the deadline and the exchange all do. */
  lemma SentExactly(attempt: Attempt, payload: Bytes)
    ensures Sent(attempt, payload).Ok? <==>
            && attempt.dial.None? && attempt.deadline.None? && attempt.write.None? && Greets(attempt.script)
            && HoldsFrame(Stream(ReadFrame(attempt.script, "", MAX_FRAME_BYTES).rest), MAX_FRAME_BYTES)
  {
    ExchangeExactly(attempt.script, attempt.write, payload);
  }

  /** Every failure of an exchange is retryable: greeting, prefix, write or response. */
  lemma ExchangeFailsRetryably(script: seq<Read>, writeError: Option<Error>, payload: Bytes)
    requires Exchange(script, writeError, payload).result.Err?
    ensures Classify(Exchange(script, writeError, payload).result.error) == Retryable
  {
    var greeting := ReadFrame(script, "", MAX_FRAME_BYTES);
    if greeting.error.Some? {
      CategorizeMatchesAll(greeting.error.value, "PJLink greeting read failed");
    } else if !(GREETING_PREFIX <= TrimSpace(greeting.buf)) {
      WrapKeepsClass("", ERR_NETWORK, ": unexpected PJLink greeting " + TrimSpace(greeting.buf));
    } else if writeError.Some? {
      CategorizeMatchesAll(writeError.value, "write failed");
    } else {
      var response := ReadFrame(greeting.rest, "", MAX_FRAME_BYTES);
      CategorizeMatchesAll(response.error.value, "PJLink response read failed");
    }
  }

  /** The one failure that can bypass the retry path is a deadline that could not be armed. */
  lemma OnlyDeadlineFailsFast(attempt: Attempt, payload: Bytes)
    requires Sent(attempt, payload).Err?
    ensures Classify(Sent(attempt, payload).error) != Retryable <==>
            attempt.dial.None? && attempt.deadline.Some? && Classify(attempt.deadline.value) != Retryable
  {
    if attempt.dial.Some? {
      CategorizeMatchesAll(attempt.dial.value, "dial failed");
    } else if attempt.deadline.Some? {
      WrapKeepsClass("failed to set socket deadline: ", attempt.deadline.value, "");
    } else {
      ExchangeFailsRetryably(attempt.script, attempt.write, payload);
    }
  }

  /** Such a failure: a deadline refused because the connection is closed. */
  lemma ClosedSocketFailsFast(script: seq<Read>, payload: Bytes)
    ensures var result := Sent(Attempt(None, Some(ERR_CLOSED), script, None), payload);
            result.Err? && Classify(result.error) == Warning
  {
    WrapKeepsClass("failed to set socket deadline: ", ERR_CLOSED, "");
  }
}
