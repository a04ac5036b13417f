// Length-prefixed frames over a byte stream, and the decoder that reassembles
// them however TCP cut the stream.
module Framing {
  import opened Bytes
  import opened Wrappers

  const HEADER: nat := 4
  const MAX_FRAME: nat := 0x10_0000

  datatype Frame = Frame(kind: Byte, payload: seq<Byte>)

  // n <= 0 or n > MaxFrameSize in a frame header.
  datatype BadLength = BadLength(n: nat)

  function EncodeFrame(kind: Byte, payload: seq<Byte>): Result<seq<Byte>, BadLength> {
    var body := [kind] + payload;
    if |body| > MAX_FRAME then Err(BadLength(|body|))
    else Ok(ToBigEndian(|body|, HEADER) + body)
  }

  predicate Legal(f: Frame) {
    1 + |f.payload| <= MAX_FRAME
  }

  // ----- what a stream means -----

  datatype Head = Incomplete | Malformed(n: nat) | Whole(frame: Frame, size: nat)

  // The frame at the front of the bytes, if all of it is there.
  function ReadHead(bytes: seq<Byte>): (h: Head)
    ensures h.Whole? ==> HEADER < h.size <= |bytes|
  {
    if |bytes| < HEADER then Incomplete
    else
      var n := BigEndian(bytes[..HEADER]);
      if n <= 0 || n > MAX_FRAME then Malformed(n)
      else if |bytes| < HEADER + n then Incomplete
      else Whole(Frame(bytes[HEADER], bytes[HEADER + 1..HEADER + n]), HEADER + n)
  }

  // Frames until the first incomplete or malformed one; what is left; and the
  // offending length if there was one.
  datatype Parsed = Parsed(frames: seq<Frame>, rest: seq<Byte>, bad: Option<nat>)

  function Parse(bytes: seq<Byte>): Parsed
    decreases |bytes|
  {
    match ReadHead(bytes)
    case Incomplete => Parsed([], bytes, None)
    case Malformed(n) => Parsed([], bytes, Some(n))
    case Whole(f, size) =>
      var p := Parse(bytes[size..]);
      p.(frames := [f] + p.frames)
  }

  // The same without a parser: bytes are the encodings of legal frames and then
  // rest; rest starts with a length that is none; rest is the beginning of a frame.
  ghost predicate Splits(bytes: seq<Byte>, frames: seq<Frame>, rest: seq<Byte>) {
    (forall f :: f in frames ==> 1 + |f.payload| <= 0x10_0000) && bytes == EncodeAll(frames) + rest
  }

  predicate BadStart(rest: seq<Byte>) {
    |rest| >= 4 && (BigEndian(rest[..4]) == 0 || BigEndian(rest[..4]) > 0x10_0000)
  }

  predicate Unfinished(rest: seq<Byte>) {
    |rest| < 4 || (1 <= BigEndian(rest[..4]) <= 0x10_0000 && |rest| < 4 + BigEndian(rest[..4]))
  }

  class Decoder {
    var buf: seq<Byte>

    constructor ()
      ensures buf == []
    {
      buf := [];
    }

    // On a malformed length the frames taken out before it are lost with it.
    method Feed(data: seq<Byte>) returns (r: Result<seq<Frame>, BadLength>)
      modifies this
      ensures var p := Parse(old(buf) + data);
        && buf == p.rest
        && r == if p.bad.Some? then Err(BadLength(p.bad.value)) else Ok(p.frames)
      ensures r.Err? <==> exists frames, rest :: Splits(old(buf) + data, frames, rest) && BadStart(rest)
      ensures r.Err? ==> BadStart(buf) && r.error.n == BigEndian(buf[..4])
                         && exists frames :: Splits(old(buf) + data, frames, buf)
      ensures r.Ok? ==> Splits(old(buf) + data, r.value, buf) && Unfinished(buf)
    {
      FailsExactly(buf + data);
      buf := buf + data;
      ghost var whole := Parse(buf);
      var frames: seq<Frame> := [];
      while true
        invariant var p := Parse(buf);
                  whole == p.(frames := frames + p.frames)
        decreases |buf|
      {
        if |buf| < HEADER {
          break;
        }
        var n := BigEndian(buf[..HEADER]);
        if n <= 0 || n > MAX_FRAME {
          return Err(BadLength(n));
        }
        var total := HEADER + n;
        if |buf| < total {
          break;
        }
        var body := buf[HEADER..total];
        assert ReadHead(buf) == Whole(Frame(body[0], body[1..]), total);
        buf := buf[total..];
        frames := frames + [Frame(body[0], body[1..])];
      }
      assert frames + [] == frames;
      return Ok(frames);
    }
  }

  // ----- more bytes -----

  lemma HeadIsStable(a: seq<Byte>, b: seq<Byte>)
    requires !ReadHead(a).Incomplete?
    ensures ReadHead(a + b) == ReadHead(a)
  {
    assert (a + b)[..HEADER] == a[..HEADER];
    if ReadHead(a).Whole? {
      var n := BigEndian(a[..HEADER]);
      assert (a + b)[HEADER + 1..HEADER + n] == a[HEADER + 1..HEADER + n];
    }
  }

  // Parsing may stop anywhere and go on when more bytes have come.
  lemma {:induction false} ParseResumes(a: seq<Byte>, b: seq<Byte>)
    ensures var first := Parse(a);
            var then_ := Parse(first.rest + b);
            Parse(a + b) == if first.bad.Some? then first.(rest := first.rest + b)
                            else then_.(frames := first.frames + then_.frames)
    decreases |a|
  {
    var h := ReadHead(a);
    if h.Incomplete? {
      assert [] + Parse(a + b).frames == Parse(a + b).frames;
    } else {
      HeadIsStable(a, b);
      if h.Whole? {
        ParseResumes(a[h.size..], b);
        assert (a + b)[h.size..] == a[h.size..] + b;
        var first := Parse(a[h.size..]);
        assert [h.frame] + (first.frames + Parse(first.rest + b).frames)
            == [h.frame] + first.frames + Parse(first.rest + b).frames;
      }
    }
  }

  // ----- a whole connection: chunk after chunk into one decoder -----

  function Concat(chunks: seq<seq<Byte>>): seq<Byte> {
    if chunks == [] then [] else Concat(chunks[..|chunks| - 1]) + chunks[|chunks| - 1]
  }

  // The decoder's buffer after the chunks, and all frames returned so far. A
  // failed call returns none.
  datatype Reading = Reading(buf: seq<Byte>, frames: seq<Frame>, failed: bool)

  function Read(chunks: seq<seq<Byte>>): Reading {
    if chunks == [] then Reading([], [], false)
    else
      var before := Read(chunks[..|chunks| - 1]);
      var p := Parse(before.buf + chunks[|chunks| - 1]);
      Reading(p.rest, if p.bad.Some? then before.frames else before.frames + p.frames, before.failed || p.bad.Some?)
  }

  // How the stream was cut does not matter: while no call has failed, frames
  // and buffer are those of the concatenation, and some call has failed exactly
  // when the concatenation is malformed.
  lemma {:induction false} ChunkingIsInvisible(chunks: seq<seq<Byte>>)
    ensures var r, p := Read(chunks), Parse(Concat(chunks));
      && r.failed == p.bad.Some?
      && r.buf == p.rest
      && r.frames <= p.frames
      && (!r.failed ==> r.frames == p.frames)
  {
    if chunks != [] {
      var front, last := chunks[..|chunks| - 1], chunks[|chunks| - 1];
      ChunkingIsInvisible(front);
      ParseResumes(Concat(front), last);
      if Parse(Concat(front)).bad.Some? {
        BadRest(Concat(front));
        ErrorIsSticky(Read(front).buf, last);
      }
    }
  }

  lemma {:induction false} BadRest(a: seq<Byte>)
    requires Parse(a).bad.Some?
    ensures ReadHead(Parse(a).rest) == Malformed(Parse(a).bad.value)
    decreases |a|
  {
    if ReadHead(a).Whole? {
      BadRest(a[ReadHead(a).size..]);
    }
  }

  // After an error every further call fails, and the buffer only grows.
  lemma ErrorIsSticky(buf: seq<Byte>, data: seq<Byte>)
    requires ReadHead(buf).Malformed?
    ensures Parse(buf + data) == Parsed([], buf + data, Some(ReadHead(buf).n))
  {
    HeadIsStable(buf, data);
  }

  // ----- encoding and decoding -----

  function Encoded(f: Frame): seq<Byte>
    requires Legal(f)
  {
    EncodeFrame(f.kind, f.payload).value
  }

  function EncodeAll(frames: seq<Frame>): seq<Byte>
    requires forall f :: f in frames ==> Legal(f)
  {
    if frames == [] then [] else Encoded(frames[0]) + EncodeAll(frames[1..])
  }

  lemma HeadOfEncoded(f: Frame, more: seq<Byte>)
    requires Legal(f)
    ensures ReadHead(Encoded(f) + more) == Whole(f, |Encoded(f)|)
  {
    var n := 1 + |f.payload|;
    var bytes := Encoded(f) + more;
    assert Power256(4) == 0x1_0000_0000;
    EncodeDecode(n, HEADER);
    assert bytes[..HEADER] == ToBigEndian(n, HEADER);
    assert bytes[HEADER + 1..HEADER + n] == f.payload;
  }

  lemma ParseFirst(f: Frame, tail: seq<Byte>)
    requires Legal(f)
    ensures Parse(Encoded(f) + tail) == Parse(tail).(frames := [f] + Parse(tail).frames)
  {
    HeadOfEncoded(f, tail);
    assert (Encoded(f) + tail)[|Encoded(f)|..] == tail;
  }

  // What was encoded comes back, frame by frame, in front of whatever follows.
  lemma {:induction false} DecodeEncoded(frames: seq<Frame>, more: seq<Byte>)
    requires forall f :: f in frames ==> Legal(f)
    ensures Parse(EncodeAll(frames) + more) == Parse(more).(frames := frames + Parse(more).frames)
  {
    if frames == [] {
      assert EncodeAll(frames) + more == more;
      assert [] + Parse(more).frames == Parse(more).frames;
    } else {
      var f, tail := frames[0], EncodeAll(frames[1..]) + more;
      DecodeEncoded(frames[1..], more);
      ParseFirst(f, tail);
      Associative(Encoded(f), EncodeAll(frames[1..]), more);
      Associative([f], frames[1..], Parse(more).frames);
      assert [f] + frames[1..] == frames;
    }
  }

  // The sender's frames arrive complete and in order, whatever the chunks.
  lemma FramesArrive(frames: seq<Frame>, chunks: seq<seq<Byte>>)
    requires forall f :: f in frames ==> Legal(f)
    requires Concat(chunks) == EncodeAll(frames)
    ensures Read(chunks) == Reading([], frames, false)
  {
    ChunkingIsInvisible(chunks);
    DecodeEncoded(frames, []);
    assert EncodeAll(frames) + [] == EncodeAll(frames);
    assert frames + [] == frames;
  }

  // Nothing is invented or dropped: frames re-encoded, then the rest, are the
  // input; and the rest holds no further complete frame.
  lemma {:induction false} ParseAccountsForInput(bytes: seq<Byte>)
    ensures var p := Parse(bytes);
      && (forall f :: f in p.frames ==> Legal(f))
      && EncodeAll(p.frames) + p.rest == bytes
      && (if p.bad.Some? then ReadHead(p.rest) == Malformed(p.bad.value) else ReadHead(p.rest).Incomplete?)
    decreases |bytes|
  {
    if ReadHead(bytes).Whole? {
      ParseAccountsForInput(bytes[ReadHead(bytes).size..]);
      HeadAccountsForInput(bytes);
    }
  }

  // Put the first frame back in front of an input that is accounted for.
  lemma HeadAccountsForInput(bytes: seq<Byte>)
    requires ReadHead(bytes).Whole?
    requires var p := Parse(bytes[ReadHead(bytes).size..]);
      (forall f :: f in p.frames ==> Legal(f)) && EncodeAll(p.frames) + p.rest == bytes[ReadHead(bytes).size..]
    ensures Legal(ReadHead(bytes).frame)
    ensures var p := Parse(bytes[ReadHead(bytes).size..]);
      EncodeAll([ReadHead(bytes).frame] + p.frames) + p.rest == bytes
  {
    var h := ReadHead(bytes);
    var p := Parse(bytes[h.size..]);
    ReencodedHead(bytes);
    EncodeFirst(h.frame, p.frames);
    Associative(Encoded(h.frame), EncodeAll(p.frames), p.rest);
    assert bytes == bytes[..h.size] + bytes[h.size..];
  }

  lemma Associative<T>(a: seq<T>, b: seq<T>, c: seq<T>)
    ensures a + b + c == a + (b + c)
  {
  }

  lemma EncodeFirst(f: Frame, frames: seq<Frame>)
    requires Legal(f) && forall g :: g in frames ==> Legal(g)
    ensures EncodeAll([f] + frames) == Encoded(f) + EncodeAll(frames)
  {
    assert ([f] + frames)[1..] == frames;
  }

  lemma ReencodedHead(bytes: seq<Byte>)
    requires ReadHead(bytes).Whole?
    ensures Legal(ReadHead(bytes).frame)
    ensures Encoded(ReadHead(bytes).frame) == bytes[..ReadHead(bytes).size]
  {
    var header := bytes[..HEADER];
    var n := BigEndian(header);
    DecodeEncode(header);
    assert bytes[..HEADER + n] == header + ([bytes[HEADER]] + bytes[HEADER + 1..HEADER + n]);
  }

  // ----- failure in terms of the bytes alone -----

  lemma FailsExactly(bytes: seq<Byte>)
    ensures var p := Parse(bytes);
      && (p.bad.Some? <==> exists frames, rest :: Splits(bytes, frames, rest) && BadStart(rest))
      && (p.bad.Some? ==> BadStart(p.rest) && p.bad.value == BigEndian(p.rest[..4]))
      && (p.bad.None? ==> Unfinished(p.rest))
      && Splits(bytes, p.frames, p.rest)
  {
    ParseAccountsForInput(bytes);
    var p := Parse(bytes);
    assert Splits(bytes, p.frames, p.rest);
    if p.bad.Some? {
      assert BadStart(p.rest);
    }
    if frames, rest :| Splits(bytes, frames, rest) && BadStart(rest) {
      DecodeEncoded(frames, rest);
      assert ReadHead(rest).Malformed?;
    }
  }

  // The same for a connection, however it was cut into chunks.
  lemma StreamFailsExactly(chunks: seq<seq<Byte>>)
    ensures Read(chunks).failed <==> exists frames, rest :: Splits(Concat(chunks), frames, rest) && BadStart(rest)
    ensures Read(chunks).failed ==> BadStart(Read(chunks).buf)
                                    && exists frames :: Splits(Concat(chunks), frames, Read(chunks).buf)
    ensures !Read(chunks).failed ==> Splits(Concat(chunks), Read(chunks).frames, Read(chunks).buf)
                                     && Unfinished(Read(chunks).buf)
  {
    ChunkingIsInvisible(chunks);
    FailsExactly(Concat(chunks));
  }

  // A failed call returns nothing: the frames returned in all are those of the
  // calls before the first failure.
  lemma {:induction false} FailureReturnsNothing(chunks: seq<seq<Byte>>)
    requires Read(chunks).failed
    ensures exists k :: 0 <= k < |chunks| && !Read(chunks[..k]).failed && Read(chunks[..k + 1]).failed
                        && Read(chunks).frames == Read(chunks[..k]).frames
  {
    var n := |chunks| - 1;
    assert chunks[..n + 1] == chunks;
    if Read(chunks[..n]).failed {
      FailureReturnsNothing(chunks[..n]);
      var k :| 0 <= k < n && !Read(chunks[..n][..k]).failed && Read(chunks[..n][..k + 1]).failed
               && Read(chunks[..n]).frames == Read(chunks[..n][..k]).frames;
      assert chunks[..n][..k] == chunks[..k] && chunks[..n][..k + 1] == chunks[..k + 1];
      ChunkingIsInvisible(chunks[..n]);
      BadRest(Concat(chunks[..n]));
      ErrorIsSticky(Read(chunks[..n]).buf, chunks[n]);
    }
  }

  // The bytes on the wire: big-endian length of what follows, kind, payload.
  lemma WireFormat(kind: Byte, payload: seq<Byte>)
    ensures EncodeFrame(kind, payload).Err? <==> 1 + |payload| > 0x10_0000
    ensures EncodeFrame(kind, payload).Err? ==> EncodeFrame(kind, payload).error.n == 1 + |payload|
    ensures EncodeFrame(kind, payload).Ok? ==>
      var out := EncodeFrame(kind, payload).value;
      && |out| == 5 + |payload|
      && BigEndian(out[..4]) == 1 + |payload| && out[4] == kind && out[5..] == payload
  {
    if 1 + |payload| <= MAX_FRAME {
      assert Power256(4) == 0x1_0000_0000;
      EncodeDecode(1 + |payload|, HEADER);
      assert EncodeFrame(kind, payload).value[..4] == ToBigEndian(1 + |payload|, HEADER);
    }
  }
}
