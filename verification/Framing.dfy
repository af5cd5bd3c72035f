/** Line framing: one pure specification of what a byte stream delivers under a frame limit, and the
    readers and the writer of the crate proved against it. */
module Framing {
  import opened Wire

  const LF: byte := 10
  const CR: byte := 13
  const CHUNK: nat := 8192

  datatype End = EndOfStream | LimitExceeded

  datatype Delivery = Delivery(frames: seq<Payload>, end: End)

  // ---------------------------------------------------------------- the specification

  /** The offset of the first line feed, or the length if there is none. */
  function LineEnd(bytes: seq<byte>): (n: nat)
    ensures n <= |bytes|
    ensures n < |bytes| ==> bytes[n] == LF
    ensures LF !in bytes[..n]
  {
    if bytes == [] || bytes[0] == LF then 0
    else
      var rest := LineEnd(bytes[1..]);
      assert bytes[..1 + rest] == [bytes[0]] + bytes[1..][..rest];
      1 + rest
  }

  /** A line without its one trailing carriage return. */
  function Stripped(line: seq<byte>): Payload {
    if line != [] && line[|line| - 1] == CR then line[..|line| - 1] else line
  }

  function Prepended(frame: Payload, d: Delivery): Delivery {
    if frame == [] then d else Delivery([frame] + d.frames, d.end)
  }

  /** What a whole stream delivers: its lines in order without delimiters, empty lines skipped, an
      unterminated last line as it is; up to the first line whose raw length exceeds the limit. */
  function Delivered(bytes: seq<byte>, limit: nat): Delivery
    decreases |bytes|
  {
    var n := LineEnd(bytes);
    if n > limit then Delivery([], LimitExceeded)
    else if n == |bytes| then Prepended(bytes, Delivery([], EndOfStream))
    else Prepended(Stripped(bytes[..n]), Delivered(bytes[n + 1..], limit))
  }

  // ---------------------------------------------------------------- lines

  lemma {:induction false} LineEndIsFirst(bytes: seq<byte>, n: nat)
    requires n < |bytes| && bytes[n] == LF && LF !in bytes[..n]
    ensures LineEnd(bytes) == n
  {
    if n > 0 {
      assert bytes[..n][0] == bytes[0] && bytes[..n][1..] == bytes[1..][..n - 1];
      LineEndIsFirst(bytes[1..], n - 1);
    }
  }

  lemma {:induction false} LineEndBeyond(bytes: seq<byte>, rest: seq<byte>)
    requires LF !in bytes
    ensures LineEnd(bytes + rest) == |bytes| + LineEnd(rest)
  {
    if bytes == [] {
      assert bytes + rest == rest;
    } else {
      assert bytes[0] in bytes && (bytes + rest)[1..] == bytes[1..] + rest;
      LineEndBeyond(bytes[1..], rest);
    }
  }

  lemma {:induction false} NoLineEnd(bytes: seq<byte>)
    ensures LF !in bytes <==> LineEnd(bytes) == |bytes|
  {
    assert bytes[..|bytes|] == bytes;
  }

  /** One more complete line at the front. */
  lemma {:induction false} LineThenRest(line: seq<byte>, rest: seq<byte>, limit: nat)
    requires LF !in line
    ensures Delivered(line + [LF] + rest, limit) ==
      if |line| > limit then Delivery([], LimitExceeded) else Prepended(Stripped(line), Delivered(rest, limit))
  {
    var bytes := line + [LF] + rest;
    assert bytes[..|line|] == line && bytes[|line|] == LF && bytes[|line| + 1..] == rest;
    LineEndIsFirst(bytes, |line|);
  }

  /** Too many bytes without a line feed decide the end, whatever follows. */
  lemma {:induction false} TooLong(bytes: seq<byte>, rest: seq<byte>, limit: nat)
    requires LF !in bytes && |bytes| > limit
    ensures Delivered(bytes + rest, limit) == Delivery([], LimitExceeded)
  {
    LineEndBeyond(bytes, rest);
  }

  lemma {:induction false} LastLine(bytes: seq<byte>, limit: nat)
    requires LF !in bytes && |bytes| <= limit
    ensures Delivered(bytes, limit) == Prepended(bytes, Delivery([], EndOfStream))
  {
    NoLineEnd(bytes);
  }

  /** What one line adds to what follows it, whoever ended it: the line itself, less one final carriage
      return if there is one; nothing if that leaves nothing; and the end of all if it is too long. */
  lemma {:induction false} LineIsDelivered(line: seq<byte>, rest: seq<byte>, limit: nat)
    requires LF !in line
    ensures var next := Delivered(rest, limit);
      && (|line| > limit ==> Delivered(line + [LF] + rest, limit) == Delivery([], LimitExceeded))
      && (|line| <= limit && (line == [] || line == [CR]) ==> Delivered(line + [LF] + rest, limit) == next)
      && (|line| <= limit && line != [] && line[|line| - 1] != CR ==>
           Delivered(line + [LF] + rest, limit) == Delivery([line] + next.frames, next.end))
  {
    LineThenRest(line, rest, limit);
  }

  /** A frame that ends in CR LF is delivered like one that ends in LF. Only the one return goes, so a
      frame may itself end in one. */
  lemma {:induction false} ReturnIsDropped(p: Payload, rest: seq<byte>, limit: nat)
    requires LF !in p && p != []
    ensures var next := Delivered(rest, limit);
      Delivered(p + [CR, LF] + rest, limit) ==
        if |p| + 1 <= limit then Delivery([p] + next.frames, next.end) else Delivery([], LimitExceeded)
  {
    var line := p + [CR];
    assert line + [LF] + rest == p + [CR, LF] + rest;
    assert line[..|line| - 1] == p;
    LineThenRest(line, rest, limit);
  }

  /** What is left without a line feed at the end of the stream is delivered as it is. */
  lemma {:induction false} TailIsDelivered(tail: seq<byte>, limit: nat)
    requires LF !in tail
    ensures Delivered(tail, limit) ==
      if |tail| > limit then Delivery([], LimitExceeded)
      else Delivery(if tail == [] then [] else [tail], EndOfStream)
  {
    NoLineEnd(tail);
  }

  // ---------------------------------------------------------------- the writer

  datatype Verdict = Acceptable | Empty | TooLarge | Delimited

  function ValidateFramePayload(payload: Payload, limit: nat): Verdict {
    if payload == [] then Empty
    else if |payload| > limit then TooLarge
    else if LF in payload || payload[|payload| - 1] == CR then Delimited
    else Acceptable
  }

  function Framed(payloads: seq<Payload>): seq<byte> {
    if payloads == [] then [] else payloads[0] + [LF] + Framed(payloads[1..])
  }

  /** Reading what was written gives back exactly the payloads, then the end of the stream. */
  lemma {:induction false} FramingRoundTrip(payloads: seq<Payload>, limit: nat)
    requires forall p :: p in payloads ==> ValidateFramePayload(p, limit).Acceptable?
    ensures Delivered(Framed(payloads), limit) == Delivery(payloads, EndOfStream)
  {
    if payloads == [] {
      LastLine([], limit);
    } else {
      assert payloads[0] in payloads && forall p :: p in payloads[1..] ==> p in payloads;
      FramingRoundTrip(payloads[1..], limit);
      LineThenRest(payloads[0], Framed(payloads[1..]), limit);
      assert Stripped(payloads[0]) == payloads[0] && [payloads[0]] + payloads[1..] == payloads;
    }
  }

  /** The same payloads as a peer writes them that ends its lines in CR LF. */
  function FramedWithReturns(payloads: seq<Payload>): seq<byte> {
    if payloads == [] then [] else payloads[0] + [CR, LF] + FramedWithReturns(payloads[1..])
  }

  /** They too read back as that list, exactly if each leaves room for its return within the limit. */
  lemma {:induction false} ReturnsRoundTrip(payloads: seq<Payload>, limit: nat)
    requires forall p :: p in payloads ==> ValidateFramePayload(p, limit).Acceptable?
    ensures Delivered(FramedWithReturns(payloads), limit) == Delivery(payloads, EndOfStream) <==>
        forall p :: p in payloads ==> |p| < limit
  {
    if payloads == [] {
      TailIsDelivered([], limit);
    } else {
      var first, others := payloads[0], payloads[1..];
      assert first in payloads && forall p :: p in payloads <==> p == first || p in others;
      ReturnsRoundTrip(others, limit);
      ReturnIsDropped(first, FramedWithReturns(others), limit);
      var next := Delivered(FramedWithReturns(others), limit);
      assert payloads == [first] + others && ([first] + next.frames)[1..] == next.frames;
    }
  }

  lemma {:induction false} FramesHaveNoLineFeed(bytes: seq<byte>, limit: nat)
    ensures forall p :: p in Delivered(bytes, limit).frames ==> LF !in p && p != []
    decreases |bytes|
  {
    var n := LineEnd(bytes);
    if n <= limit && n == |bytes| {
      assert bytes[..n] == bytes;
    } else if n <= limit {
      FramesHaveNoLineFeed(bytes[n + 1..], limit);
      assert forall b :: b in Stripped(bytes[..n]) ==> b in bytes[..n];
    }
  }

  /** The writer accepts exactly the payloads that a reader would give back. */
  lemma {:induction false} ValidationIsExact(payload: Payload, limit: nat)
    ensures ValidateFramePayload(payload, limit).Acceptable? <==>
        Delivered(payload + [LF], limit) == Delivery([payload], EndOfStream)
  {
    var d := Delivered(payload + [LF], limit);
    FramesHaveNoLineFeed(payload + [LF], limit);
    assert d == Delivery([payload], EndOfStream) ==> payload in d.frames;
    if LF !in payload {
      assert payload + [LF] + [] == payload + [LF];
      LineThenRest(payload, [], limit);
      LastLine([], limit);
      if payload != [] && |payload| <= limit && payload[|payload| - 1] == CR {
        assert |Stripped(payload)| < |payload|;
        assert Delivery([payload], EndOfStream).frames[0] == payload;
      }
    }
  }

  class Sink {
    var written: seq<byte>

    constructor ()
      ensures written == []
    {
      written := [];
    }

    /** A write may stop short, after any prefix. */
    method WriteAll(bytes: seq<byte>) returns (ok: bool)
      modifies this
      ensures ok ==> written == old(written) + bytes
      ensures exists n :: 0 <= n <= |bytes| && written == old(written) + bytes[..n]
    {
      var n: nat :| n <= |bytes|;
      ok := n == |bytes|;
      written := written + bytes[..n];
      assert bytes[..|bytes|] == bytes;
    }
  }

  method WriteFrame(sink: Sink, payload: Payload, limit: nat) returns (ok: bool)
    modifies sink
    ensures ok ==> (
      ValidateFramePayload(payload, limit).Acceptable? && sink.written == old(sink.written) + (payload + [LF]))
    ensures !ValidateFramePayload(payload, limit).Acceptable? ==> !ok && sink.written == old(sink.written)
    ensures exists n :: 0 <= n <= |payload| + 1 && sink.written == old(sink.written) + (payload + [LF])[..n]
  {
    if !ValidateFramePayload(payload, limit).Acceptable? {
      assert sink.written == old(sink.written) + (payload + [LF])[..0];
      return false;
    }
    ok := sink.WriteAll(payload);
    if !ok {
      ghost var n :| 0 <= n <= |payload| && sink.written == old(sink.written) + payload[..n];
      assert payload[..n] == (payload + [LF])[..n];
      return;
    }
    ok := sink.WriteAll([LF]);
    ghost var m :| 0 <= m <= 1 && sink.written == old(sink.written) + payload + [LF][..m];
    assert old(sink.written) + payload + [LF][..m] == old(sink.written) + (payload + [LF])[..|payload| + m];
  }

  // ---------------------------------------------------------------- the stream

  /** An input stream: every read takes some of what remains, and nothing only at its end. */
  class Pipe {
    var remaining: seq<byte>

    constructor (bytes: seq<byte>)
      ensures remaining == bytes
    {
      remaining := bytes;
    }

    method Read(room: nat) returns (chunk: seq<byte>)
      requires room > 0
      modifies this
      ensures old(remaining) == chunk + remaining && |chunk| <= room
      ensures chunk == [] <==> old(remaining) == []
    {
      if remaining == [] {
        return [];
      }
      assert 1 <= room && 1 <= |remaining|;
      var n: nat :| 1 <= n <= room && n <= |remaining|;
      chunk := remaining[..n];
      remaining := remaining[n..];
    }
  }

  // ---------------------------------------------------------------- the buffered readers

  datatype Read = Line(payload: Payload) | Ended | Oversized

  /** One frame off the front: what came before it is gone, what it leaves is what follows. */
  predicate Takes(r: Read, before: Delivery, after: Delivery) {
    match r
    case Line(p) => p != [] && before == Prepended(p, after)
    case Ended => before == Delivery([], EndOfStream)
    case Oversized => before == Delivery([], LimitExceeded)
  }

  class BufReader {
    const pipe: Pipe
    var buffer: seq<byte>

    constructor (pipe: Pipe)
      ensures this.pipe == pipe && buffer == []
    {
      this.pipe := pipe;
      buffer := [];
    }

    function Ahead(): seq<byte>
      reads this, pipe
    {
      buffer + pipe.remaining
    }

    method FillBuf()
      modifies this, pipe
      ensures Ahead() == old(Ahead()) && (buffer == [] <==> Ahead() == [])
    {
      if buffer == [] {
        buffer := pipe.Read(CHUNK);
      }
    }

    method Consume(n: nat)
      requires n <= |buffer|
      modifies this
      ensures old(buffer) == old(buffer)[..n] + buffer && Ahead() == old(Ahead())[n..]
    {
      buffer := buffer[n..];
    }
  }

  /** What the first line feed of a buffer decides about the line it ends, or does not end. */
  lemma {:induction false} LineAt(line: seq<byte>, buffer: seq<byte>, n: nat, rest: seq<byte>, limit: nat)
    requires LF !in line && n == LineEnd(buffer)
    ensures LF !in line + buffer[..n]
    ensures |line| + n > limit ==> Delivered(line + (buffer + rest), limit) == Delivery([], LimitExceeded)
    ensures |line| + n <= limit && n < |buffer| ==>
      Delivered(line + (buffer + rest), limit) ==
          Prepended(Stripped(line + buffer[..n]), Delivered((buffer + rest)[n + 1..], limit))
  {
    var whole := line + buffer[..n];
    if n < |buffer| {
      assert (buffer + rest)[n + 1..] == buffer[n + 1..] + rest;
      assert line + (buffer + rest) == whole + [LF] + (buffer + rest)[n + 1..];
      LineThenRest(whole, (buffer + rest)[n + 1..], limit);
    } else {
      assert line + (buffer + rest) == whole + rest;
      if |whole| > limit {
        TooLong(whole, rest, limit);
      }
    }
  }

  /** One round of the reader: a frame or an end, or the line so far. */
  method ReadSome(reader: BufReader, line: seq<byte>, limit: nat) returns (r: Option<Read>, grown: seq<byte>)
    requires LF !in line && |line| <= limit
    modifies reader, reader.pipe
    ensures r.Some? ==> Takes(r.value, Delivered(line + old(reader.Ahead()), limit), Delivered(reader.Ahead(), limit))
    ensures r.Some? && r.value.Ended? ==> reader.Ahead() == []
    ensures |reader.Ahead()| <= |old(reader.Ahead())|
    ensures r.Some? && r.value.Line? ==> |reader.Ahead()| < |line| + |old(reader.Ahead())|
    ensures r.None? ==> LF !in grown && |grown| <= limit && |reader.Ahead()| < |old(reader.Ahead())|
    ensures r.None? ==> |grown| + |reader.Ahead()| <= |line| + |old(reader.Ahead())|
    ensures r.None? ==> Delivered(grown + reader.Ahead(), limit) == Delivered(line + old(reader.Ahead()), limit)
  {
    hide Delivered, LineEnd, Stripped;
    grown := line;
    reader.FillBuf();
    ghost var ahead := reader.Ahead();
    if reader.buffer == [] {
      assert line + [] == line;
      LastLine(line, limit);
      LastLine([], limit);
      return Some(if line == [] then Ended else Line(line)), line;
    }
    var n := LineEnd(reader.buffer);
    var piece := reader.buffer[..n];
    LineAt(line, reader.buffer, n, reader.pipe.remaining, limit);
    if |line| + n > limit {
      return Some(Oversized), line;
    }
    if n == |reader.buffer| {
      assert line + ahead == (line + piece) + ahead[n..];
      reader.Consume(n);
      return None, line + piece;
    }
    grown := Stripped(line + piece);
    reader.Consume(n + 1);
    if grown != [] {
      return Some(Line(grown)), grown;
    }
    assert [] + ahead[n + 1..] == ahead[n + 1..];
    r := None;
  }

  /** The reader over a buffered stream, in its blocking and its asynchronous form. */
  method ReadFrame(reader: BufReader, limit: nat) returns (r: Read)
    modifies reader, reader.pipe
    ensures Takes(r, Delivered(old(reader.Ahead()), limit), Delivered(reader.Ahead(), limit))
    ensures r.Ended? ==> reader.Ahead() == []
    ensures r.Line? ==> |reader.Ahead()| < |old(reader.Ahead())|
  {
    var line: seq<byte> := [];
    assert [] + reader.Ahead() == reader.Ahead();
    while true
      invariant LF !in line && |line| <= limit && |line| + |reader.Ahead()| <= |old(reader.Ahead())|
      invariant Delivered(line + reader.Ahead(), limit) == Delivered(old(reader.Ahead()), limit)
      decreases |reader.Ahead()|
    {
      var found;
      found, line := ReadSome(reader, line, limit);
      if found.Some? {
        return found.value;
      }
    }
  }

  // ---------------------------------------------------------------- accounting for whole lines

  /** Nothing, or complete lines only. */
  predicate Whole(bytes: seq<byte>) {
    bytes == [] || bytes[|bytes| - 1] == LF
  }

  predicate Accounts(passed: seq<byte>, frames: seq<Payload>, limit: nat) {
    Delivered(passed, limit) == Delivery(frames, EndOfStream)
  }

  /** One delivery after another. */
  function Joined(a: Delivery, b: Delivery): Delivery {
    Delivery(a.frames + b.frames, b.end)
  }

  lemma {:induction false} PrependedJoins(p: Payload, a: Delivery, b: Delivery)
    ensures Prepended(p, Joined(a, b)) == Joined(Prepended(p, a), b)
  {
    assert [p] + (a.frames + b.frames) == ([p] + a.frames) + b.frames;
  }

  /** Reading until the end delivers what the specification says, however the stream was cut up. */
  method ReadAll(reader: BufReader, limit: nat) returns (d: Delivery)
    modifies reader, reader.pipe
    ensures d == Delivered(old(reader.Ahead()), limit)
  {
    var frames: seq<Payload> := [];
    ghost var all := Delivered(reader.Ahead(), limit);
    assert Joined(Delivery([], EndOfStream), all) == all;
    while true
      invariant all == Joined(Delivery(frames, EndOfStream), Delivered(reader.Ahead(), limit))
      decreases |reader.Ahead()|
    {
      var r := ReadFrame(reader, limit);
      match r {
        case Line(p) =>
          FrameMoves(frames, p, Delivered(reader.Ahead(), limit));
          frames := frames + [p];
        case Ended => return Delivery(frames, EndOfStream);
        case Oversized => return Delivery(frames, LimitExceeded);
      }
    }
  }

  lemma {:induction false} FrameMoves(frames: seq<Payload>, p: Payload, after: Delivery)
    requires p != []
    ensures Joined(Delivery(frames, EndOfStream), Prepended(p, after)) ==
        Joined(Delivery(frames + [p], EndOfStream), after)
  {
    assert frames + ([p] + after.frames) == (frames + [p]) + after.frames;
  }

  lemma {:induction false} SplitLine(whole: seq<byte>) returns (line: seq<byte>, tail: seq<byte>)
    requires whole != [] && Whole(whole)
    ensures whole == line + [LF] + tail && LF !in line && Whole(tail)
  {
    NoLineEnd(whole);
    assert whole[|whole| - 1] in whole;
    var n := LineEnd(whole);
    line, tail := whole[..n], whole[n + 1..];
  }

  lemma {:induction false} LineJoins(line: seq<byte>, tail: seq<byte>, rest: seq<byte>, limit: nat)
    requires LF !in line && |line| <= limit
    requires Delivered(tail + rest, limit) == Joined(Delivered(tail, limit), Delivered(rest, limit))
    ensures Delivered(line + [LF] + tail + rest, limit) ==
        Joined(Delivered(line + [LF] + tail, limit), Delivered(rest, limit))
  {
    assert line + [LF] + tail + rest == line + [LF] + (tail + rest);
    LineThenRest(line, tail, limit);
    LineThenRest(line, tail + rest, limit);
    PrependedJoins(Stripped(line), Delivered(tail, limit), Delivered(rest, limit));
  }

  /** Complete lines and what follows them are delivered independently. */
  lemma {:induction false} WholeThenRest(whole: seq<byte>, rest: seq<byte>, limit: nat)
    requires Whole(whole) && Delivered(whole, limit).end.EndOfStream?
    ensures Delivered(whole + rest, limit) == Joined(Delivered(whole, limit), Delivered(rest, limit))
    decreases |whole|
  {
    if whole == [] {
      assert whole + rest == rest;
      LastLine([], limit);
      assert [] + Delivered(rest, limit).frames == Delivered(rest, limit).frames;
    } else {
      var line, tail := SplitLine(whole);
      LineThenRest(line, tail, limit);
      WholeThenRest(tail, rest, limit);
      LineJoins(line, tail, rest, limit);
    }
  }

  lemma {:induction false} AcceptLine(passed: seq<byte>, frames: seq<Payload>, line: seq<byte>, limit: nat)
    requires Whole(passed) && Accounts(passed, frames, limit) && LF !in line && |line| <= limit
    ensures Whole(passed + (line + [LF]))
    ensures Accounts(passed + (line + [LF]), frames + (if Stripped(line) == [] then [] else [Stripped(line)]), limit)
  {
    assert line + [LF] + [] == line + [LF];
    LineThenRest(line, [], limit);
    LastLine([], limit);
    WholeThenRest(passed, line + [LF], limit);
  }

  lemma {:induction false} AcceptTail(passed: seq<byte>, frames: seq<Payload>, tail: seq<byte>, limit: nat)
    requires Whole(passed) && Accounts(passed, frames, limit) && LF !in tail && tail != [] && |tail| <= limit
    ensures Accounts(passed + tail, frames + [tail], limit)
  {
    LastLine(tail, limit);
    WholeThenRest(passed, tail, limit);
  }

  // ---------------------------------------------------------------- the timed reader

  datatype Poll = Ready | Expired | Interrupted | Failed

  datatype Extract = Found(payload: Payload) | Incomplete | TooBig

  datatype TimedRead = Got(payload: Payload) | AtEnd | TimedOut | OverLimit | PollFailed

  /** A reader that is polled: it keeps partial and read-ahead bytes across time-outs. The ghost
      fields account for every byte: `passed` is what has been turned into `frames`. */
  class TimedFrameReader {
    const pipe: Pipe
    const limit: nat
    ghost const total: seq<byte>
    var buffer: seq<byte>
    var consumed: nat
    var eof: bool
    ghost var passed: seq<byte>
    ghost var frames: seq<Payload>

    predicate InBounds()
      reads this
    {
      consumed <= |buffer| < limit + 2 * CHUNK
    }

    function Pending(): seq<byte>
      requires consumed <= |buffer|
      reads this
    {
      buffer[consumed..]
    }

    ghost predicate Valid()
      reads this, pipe
    {
      && InBounds()
      && total == passed + (Pending() + pipe.remaining)
      && (eof ==> pipe.remaining == [])
      && Accounts(passed, frames, limit)
      && (Whole(passed) || (eof && Pending() == []))
    }

    constructor (pipe: Pipe, limit: nat)
      ensures Valid() && this.pipe == pipe && this.limit == limit && total == pipe.remaining && frames == []
    {
      this.pipe, this.limit := pipe, limit;
      buffer, consumed, eof := [], 0, false;
      passed, frames := [], [];
      total := pipe.remaining;
      new;
      LastLine([], limit);
      assert [] + ([] + pipe.remaining) == pipe.remaining;
    }

    /** Bytes have left the stream that are in no returned frame yet. When there are none, the stream
        and the frames account for everything. */
    predicate HasBufferedInput()
      reads this
    {
      consumed < |buffer|
    }

    method Compact()
      requires Valid()
      modifies this`buffer, this`consumed
      ensures Valid() && Pending() == old(Pending()) && consumed < CHUNK
      ensures |buffer| <= |Pending()| + CHUNK - 1
    {
      if consumed == |buffer| {
        buffer, consumed := [], 0;
      } else if consumed >= CHUNK {
        buffer, consumed := buffer[consumed..], 0;
      }
    }

    /** The next frame in the buffer, if it holds a complete one. */
    method ExtractFrame() returns (r: Extract)
      requires Valid()
      modifies this`consumed, this`passed, this`frames
      ensures Valid()
      ensures r.Found? ==> r.payload != [] && frames == old(frames) + [r.payload]
      ensures !r.Found? ==> frames == old(frames)
      ensures r.Incomplete? ==> LF !in Pending() && |Pending()| <= limit && (eof ==> Pending() == [])
      ensures r.TooBig? ==> Delivered(total, limit) == Delivery(frames, LimitExceeded)
    {
      hide Delivered, LineEnd, Whole;
      while true
        invariant Valid() && frames == old(frames)
        decreases |buffer| - consumed
      {
        var pending := buffer[consumed..];
        var n := LineEnd(pending);
        NoLineEnd(pending);
        if n == |pending| {
          if n > limit {
            OverLimitEnds(n);
            return TooBig;
          }
          if eof && pending != [] {
            AcceptTail(passed, frames, pending, limit);
            PassOn(pending, [pending]);
            return Found(pending);
          }
          return Incomplete;
        }
        if n > limit {
          OverLimitEnds(n);
          return TooBig;
        }
        var frame := Stripped(pending[..n]);
        AcceptLine(passed, frames, pending[..n], limit);
        assert pending[..n + 1] == pending[..n] + [LF];
        PassOn(pending[..n] + [LF], if frame == [] then [] else [frame]);
        if frame != [] {
          return Found(frame);
        }
      }
    }

    /** The front of the pending bytes has been dealt with. */
    method PassOn(front: seq<byte>, ghost more: seq<Payload>)
      requires Valid() && front <= Pending()
      requires Accounts(passed + front, frames + more, limit)
      requires Whole(passed + front) || (eof && front == Pending())
      modifies this`consumed, this`passed, this`frames
      ensures Valid() && consumed == old(consumed) + |front| && frames == old(frames) + more
    {
      hide Delivered, Whole, Accounts;
      assert Pending() == front + buffer[consumed + |front|..];
      assert passed + (Pending() + pipe.remaining) == (passed + front)
          + (buffer[consumed + |front|..] + pipe.remaining);
      consumed := consumed + |front|;
      passed := passed + front;
      frames := frames + more;
    }

    lemma OverLimitEnds(n: nat)
      requires Valid() && n == LineEnd(Pending()) && n > limit
      ensures Delivered(total, limit) == Delivery(frames, LimitExceeded)
    {
      TooLong(Pending()[..n], Pending()[n..] + pipe.remaining, limit);
      assert Pending()[..n] + (Pending()[n..] + pipe.remaining) == Pending() + pipe.remaining;
      WholeThenRest(passed, Pending() + pipe.remaining, limit);
    }

    /** Reads what is ready. */
    method ReadChunk()
      requires Valid() && |Pending()| <= limit && !eof
      modifies this`buffer, this`consumed, this`eof, pipe
      ensures Valid() && frames == old(frames) && passed == old(passed)
    {
      Compact();
      var chunk := pipe.Read(CHUNK);
      if chunk == [] {
        eof := true;
      } else {
        assert passed + (Pending() + (chunk + pipe.remaining)) == passed
            + ((buffer + chunk)[consumed..] + pipe.remaining);
        buffer := buffer + chunk;
      }
    }

    /** Waits for one frame or the end of the stream; `polls` is what successive polls report until the
        time is up. Whatever the time-outs and however the stream is cut up, the frames so far are
        those that the whole stream delivers, in order, none lost and none made up. */
    method ReadFrame(polls: seq<Poll>) returns (r: TimedRead)
      requires Valid()
      modifies this, pipe
      ensures Valid()
      ensures r.Got? ==> r.payload != [] && frames == old(frames) + [r.payload]
      ensures !r.Got? ==> frames == old(frames)
      ensures r.AtEnd? ==> Delivered(total, limit) == Delivery(frames, EndOfStream)
      ensures r.OverLimit? ==> Delivered(total, limit) == Delivery(frames, LimitExceeded)
    {
      for i := 0 to |polls|
        invariant Valid() && frames == old(frames)
      {
        var extracted := ExtractFrame();
        match extracted {
          case Found(p) => return Got(p);
          case TooBig => return OverLimit;
          case Incomplete =>
        }
        if eof {
          assert passed + ([] + []) == passed;
          return AtEnd;
        }
        match polls[i] {
          case Ready => ReadChunk();
          case Interrupted =>
          case Expired => return TimedOut;
          case Failed => return PollFailed;
        }
      }
      r := TimedOut;
    }

    /** Between calls the frames so far and what is still to come make up the whole. */
    lemma NothingIsLost()
      requires Valid()
      ensures var rest := Delivered(Pending() + pipe.remaining, limit);
        Whole(passed) ==> Delivered(total, limit) == Joined(Delivery(frames, EndOfStream), rest)
      ensures !Whole(passed) ==> Delivered(total, limit) == Delivery(frames, EndOfStream)
      ensures !HasBufferedInput() ==> total == passed + pipe.remaining
    {
      hide Delivered, Whole;
      if Whole(passed) {
        WholeThenRest(passed, Pending() + pipe.remaining, limit);
      } else {
        assert passed + ([] + []) == passed;
      }
    }
  }
}
