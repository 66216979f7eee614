/** The frame codec: a fixed header announcing two lengths, then a header section and a payload. */
module Frames {
  import opened Wrappers
  import opened Bytes

  const MAGIC: nat := 0x5A4D
  const VERSION: nat := 1
  const HEADER_SIZE: nat := 22
  const PUB: byte := 0x20
  const MSG: byte := 0x21

  datatype FrameHeader = FrameHeader(
    magic: nat, version: byte, frameType: byte, flags: nat, correlationId: nat, headerLen: nat, payloadLen: nat)

  datatype Frame = Frame(header: FrameHeader, headers: seq<byte>, payload: seq<byte>)

  datatype ProtocolError =
    | InvalidMagic(got: nat)
    | UnsupportedVersion(version: byte)
    | UnknownFrameType(frameType: byte)
    | FrameTooLarge(size: nat, limit: nat)
    | DecodingError(what: string)

  function EncodeHeader(h: FrameHeader): (b: seq<byte>)
    ensures |b| == HEADER_SIZE
  {
    Be(2, h.magic) + [h.version] + [h.frameType] + Be(2, h.flags) + Be(8, h.correlationId) +
    Be(4, h.headerLen) + Be(4, h.payloadLen)
  }

  function Encode(f: Frame): seq<byte> {
    EncodeHeader(f.header) + f.headers + f.payload
  }

  function DecodeHeader(b: seq<byte>): Result<FrameHeader, ProtocolError>
    requires |b| >= HEADER_SIZE
  {
    if Word(b, 0, 2) != MAGIC then Failure(InvalidMagic(Word(b, 0, 2)))
    else if b[2] != VERSION then Failure(UnsupportedVersion(b[2]))
    else
      Success(FrameHeader(Word(b, 0, 2), b[2], b[3], Word(b, 4, 2), Word(b, 6, 8), Word(b, 14, 4), Word(b, 18, 4)))
  }

  /** The size the first 22 bytes announce. */
  function Total(buf: seq<byte>): nat
    requires |buf| >= HEADER_SIZE
  {
    HEADER_SIZE + Word(buf, 14, 4) + Word(buf, 18, 4)
  }

  /** What `decode_from` answers, and what it leaves in the buffer. */
  datatype Decoded = Incomplete | Got(frame: Frame, rest: seq<byte>) | Refused(error: ProtocolError, rest: seq<byte>)

  function Split(buf: seq<byte>, total: nat): Decoded
    requires HEADER_SIZE <= |buf| && total == Total(buf) <= |buf|
  {
    match DecodeHeader(buf[..HEADER_SIZE])
    case Failure(e) => Refused(e, buf[total..])
    case Success(h) =>
      var at := HEADER_SIZE + Word(buf, 14, 4);
      Got(Frame(h, buf[HEADER_SIZE..at], buf[at..total]), buf[total..])
  }

  function Decode(buf: seq<byte>, max: nat): Decoded {
    if |buf| < HEADER_SIZE then Incomplete
    else
      var total := Total(buf);
      if total > max then Refused(FrameTooLarge(total, max), buf)
      else if |buf| < total then Incomplete
      else Split(buf, total)
  }

  // Round trip

  ghost predicate HeaderFits(h: FrameHeader) {
    h.magic < U16 && h.flags < U16 && h.correlationId < U64 && h.headerLen < U32 && h.payloadLen < U32
  }

  /** A frame the codec accepts: current magic and version, lengths that are those of its parts, within `max`. */
  ghost predicate WellFormed(f: Frame, max: nat) {
    && HeaderFits(f.header)
    && f.header.magic == MAGIC && f.header.version == VERSION
    && f.header.headerLen == |f.headers| && f.header.payloadLen == |f.payload|
    && HEADER_SIZE + |f.headers| + |f.payload| <= max
  }

  lemma {:induction false} Slices(
    a: seq<byte>, b: byte, c: byte, d: seq<byte>, e: seq<byte>, f: seq<byte>, g: seq<byte>, post: seq<byte>)
    requires |a| == 2 && |d| == 2 && |e| == 8 && |f| == 4 && |g| == 4
    ensures var t := a + [b] + [c] + d + e + f + g + post;
            t[0..2] == a && t[2] == b && t[3] == c && t[4..6] == d && t[6..14] == e && t[14..18] == f && t[18..22] == g
  {
  }

  /** Every field of an encoded header is read back. */
  lemma {:induction false} HeaderReadsBack(h: FrameHeader, post: seq<byte>)
    requires HeaderFits(h)
    ensures var t := EncodeHeader(h) + post;
            && Word(t, 0, 2) == h.magic && t[2] == h.version && t[3] == h.frameType && Word(t, 4, 2) == h.flags
            && Word(t, 6, 8) == h.correlationId && Word(t, 14, 4) == h.headerLen && Word(t, 18, 4) == h.payloadLen
  {
    hide Be;
    var t := EncodeHeader(h) + post;
    Widths();
    Slices(Be(2, h.magic), h.version, h.frameType, Be(2, h.flags), Be(8, h.correlationId),
           Be(4, h.headerLen), Be(4, h.payloadLen), post);
    WordAt(t, 0, 2, h.magic);
    WordAt(t, 4, 2, h.flags);
    WordAt(t, 6, 8, h.correlationId);
    WordAt(t, 14, 4, h.headerLen);
    WordAt(t, 18, 4, h.payloadLen);
  }

  /** An encoded frame is decoded as it was, and what follows it stays in the buffer. */
  lemma {:induction false} DecodeEncode(f: Frame, rest: seq<byte>, max: nat)
    requires WellFormed(f, max)
    ensures Decode(Encode(f) + rest, max) == Got(f, rest)
  {
    hide EncodeHeader;
    var buf := Encode(f) + rest;
    var h := EncodeHeader(f.header);
    assert buf == h + (f.headers + f.payload + rest);
    HeaderReadsBack(f.header, f.headers + f.payload + rest);
    HeaderReadsBack(f.header, []);
    assert buf[..HEADER_SIZE] == h + [];
    PartsOf(h, f.headers, f.payload, rest);
  }

  lemma {:induction false} PartsOf(h: seq<byte>, x: seq<byte>, p: seq<byte>, rest: seq<byte>)
    ensures var t := h + x + p + rest;
            && t[|h|..|h| + |x|] == x
            && t[|h| + |x|..|h| + |x| + |p|] == p
            && t[|h| + |x| + |p|..] == rest
  {
  }

  lemma {:induction false} HeaderRebuilt(b: seq<byte>)
    requires |b| >= HEADER_SIZE && DecodeHeader(b).Success?
    ensures HeaderFits(DecodeHeader(b).value) && EncodeHeader(DecodeHeader(b).value) == b[..HEADER_SIZE]
  {
    hide Be;
    Widths();
    AtWord(b, 0, 2);
    AtWord(b, 4, 2);
    AtWord(b, 6, 8);
    AtWord(b, 14, 4);
    AtWord(b, 18, 4);
    assert b[..HEADER_SIZE] == b[0..2] + [b[2]] + [b[3]] + b[4..6] + b[6..14] + b[14..18] + b[18..22];
  }

  lemma {:induction false} WordInPrefix(t: seq<byte>, c: nat, at: nat, n: nat)
    requires at + n <= c <= |t|
    ensures Word(t[..c], at, n) == Word(t, at, n)
  {
    WordIsUn(t, at, t[at..at + n]);
    WordIsUn(t[..c], at, t[at..at + n]);
  }

  /** Whatever is decoded is well formed, and the buffer began with exactly its encoding. */
  lemma {:induction false} EncodeDecode(buf: seq<byte>, max: nat)
    requires Decode(buf, max).Got?
    ensures var d := Decode(buf, max);
            WellFormed(d.frame, max) && buf == Encode(d.frame) + d.rest
  {
    hide EncodeHeader;
    hide DecodeHeader;
    var total := Total(buf);
    HeaderRebuilt(buf[..HEADER_SIZE]);
    DecodedHeader(buf[..HEADER_SIZE]);
    WordInPrefix(buf, HEADER_SIZE, 14, 4);
    WordInPrefix(buf, HEADER_SIZE, 18, 4);
    var at := HEADER_SIZE + Word(buf, 14, 4);
    assert buf[..HEADER_SIZE][..HEADER_SIZE] == buf[..HEADER_SIZE];
    assert buf == buf[..HEADER_SIZE] + buf[HEADER_SIZE..at] + buf[at..total] + buf[total..];
  }

  lemma {:induction false} DecodedHeader(b: seq<byte>)
    requires |b| >= HEADER_SIZE && DecodeHeader(b).Success?
    ensures var h := DecodeHeader(b).value;
            && h.magic == MAGIC && h.version == VERSION && h.frameType == b[3] && h.correlationId == Word(b, 6, 8)
            && h.headerLen == Word(b, 14, 4) && h.payloadLen == Word(b, 18, 4)
  {
  }

  // More bytes arriving

  lemma {:induction false} WordStable(a: seq<byte>, b: seq<byte>, at: nat, n: nat)
    requires at + n <= |a|
    ensures Word(a + b, at, n) == Word(a, at, n)
  {
    assert (a + b)[..|a|] == a;
    WordInPrefix(a + b, |a|, at, n);
  }

  lemma {:induction false} TotalStable(a: seq<byte>, b: seq<byte>)
    requires |a| >= HEADER_SIZE
    ensures Total(a + b) == Total(a)
  {
    WordStable(a, b, 14, 4);
    WordStable(a, b, 18, 4);
  }

  /** A decision once taken does not change when more bytes arrive. */
  lemma {:induction false} DecodeStable(a: seq<byte>, b: seq<byte>, max: nat)
    ensures match Decode(a, max)
            case Incomplete => true
            case Got(f, rest) => Decode(a + b, max) == Got(f, rest + b)
            case Refused(e, rest) => Decode(a + b, max) == Refused(e, rest + b)
  {
    hide DecodeHeader;
    if |a| >= HEADER_SIZE {
      TotalStable(a, b);
      WordStable(a, b, 14, 4);
      assert (a + b)[..HEADER_SIZE] == a[..HEADER_SIZE];
      var total := Total(a);
      if total <= |a| {
        var at := HEADER_SIZE + Word(a, 14, 4);
        assert (a + b)[HEADER_SIZE..at] == a[HEADER_SIZE..at];
        assert (a + b)[at..total] == a[at..total];
        assert (a + b)[total..] == a[total..] + b;
      }
    }
  }

  /** A frame cut anywhere before its end is incomplete, so the buffer is left as it is. */
  lemma {:induction false} CutIsIncomplete(f: Frame, c: nat, max: nat)
    requires WellFormed(f, max) && c < |Encode(f)|
    ensures Decode(Encode(f)[..c], max) == Incomplete
  {
    var a, b := Encode(f)[..c], Encode(f)[c..];
    assert a + b == Encode(f) == Encode(f) + [];
    DecodeStable(a, b, max);
    DecodeEncode(f, [], max);
  }

  // What is refused

  /** A frame whose header fields fit and whose lengths are those of its parts. */
  ghost predicate Honest(f: Frame) {
    HeaderFits(f.header) && f.header.headerLen == |f.headers| && f.header.payloadLen == |f.payload|
  }

  lemma {:induction false} HonestTotal(f: Frame, rest: seq<byte>, c: nat)
    requires Honest(f) && HEADER_SIZE <= c <= |Encode(f) + rest|
    ensures Total((Encode(f) + rest)[..c]) == |Encode(f)|
  {
    hide EncodeHeader;
    var t := Encode(f) + rest;
    assert t == EncodeHeader(f.header) + (f.headers + f.payload + rest);
    HeaderReadsBack(f.header, f.headers + f.payload + rest);
    WordInPrefix(t, c, 14, 4);
    WordInPrefix(t, c, 18, 4);
  }

  /** A frame over the limit is refused as soon as its header is there, and stays in the buffer. */
  lemma {:induction false} TooLargeIsRefused(f: Frame, rest: seq<byte>, c: nat, max: nat)
    requires Honest(f) && |Encode(f)| > max && HEADER_SIZE <= c <= |Encode(f) + rest|
    ensures var buf := (Encode(f) + rest)[..c];
            Decode(buf, max) == Refused(FrameTooLarge(|Encode(f)|, max), buf)
  {
    hide Encode;
    hide Total;
    HonestTotal(f, rest, c);
  }

  /** A frame of another protocol or version is refused once it is complete, and taken off the buffer. */
  lemma {:induction false} ForeignIsRefused(f: Frame, rest: seq<byte>, max: nat)
    requires Honest(f) && |Encode(f)| <= max && (f.header.magic != 0x5A4D || f.header.version != 1)
    ensures Decode(Encode(f) + rest, max) ==
            Refused(if f.header.magic != 0x5A4D then InvalidMagic(f.header.magic)
                    else UnsupportedVersion(f.header.version), rest)
  {
    hide EncodeHeader;
    var t := Encode(f) + rest;
    assert t == EncodeHeader(f.header) + (f.headers + f.payload + rest);
    HeaderReadsBack(f.header, f.headers + f.payload + rest);
    HeaderReadsBack(f.header, []);
    assert t[..HEADER_SIZE] == EncodeHeader(f.header) + [];
    assert t[|Encode(f)|..] == rest;
  }

  /** Decoding takes bytes off the front and never adds any. */
  lemma {:induction false} DecodeShrinks(buf: seq<byte>, max: nat)
    ensures Decode(buf, max).Got? ==> |Decode(buf, max).rest| + HEADER_SIZE <= |buf|
    ensures Decode(buf, max).Refused? ==> |Decode(buf, max).rest| <= |buf| && |buf| >= HEADER_SIZE
  {
  }

  // The decode loop

  /** The frames at the front of the buffer, what is left, and whether the codec refused it. */
  datatype Drained = Drained(frames: seq<Frame>, rest: seq<byte>, refused: bool)

  function Drain(buf: seq<byte>, max: nat): Drained
    decreases |buf|
  {
    DecodeShrinks(buf, max);
    match Decode(buf, max)
    case Incomplete => Drained([], buf, false)
    case Refused(_, rest) => Drained([], rest, true)
    case Got(f, rest) =>
      var d := Drain(rest, max);
      d.(frames := [f] + d.frames)
  }

  /** Bytes arrive in chunks; after each the loop takes out what frames it can. */
  function Feed(chunks: seq<seq<byte>>, max: nat): Drained {
    if chunks == [] then Drained([], [], false)
    else
      var before := Feed(chunks[..|chunks| - 1], max);
      var d := Drain(before.rest + chunks[|chunks| - 1], max);
      Drained(before.frames + d.frames, d.rest, before.refused || d.refused)
  }

  function Flatten(chunks: seq<seq<byte>>): seq<byte> {
    if chunks == [] then [] else Flatten(chunks[..|chunks| - 1]) + chunks[|chunks| - 1]
  }

  /** Draining what arrived first and then the rest is draining everything. */
  lemma {:induction false} DrainConcat(a: seq<byte>, b: seq<byte>, max: nat)
    requires !Drain(a, max).refused
    ensures var d := Drain(a, max);
            var e := Drain(d.rest + b, max);
            Drain(a + b, max) == Drained(d.frames + e.frames, e.rest, e.refused)
    decreases |a|
  {
    hide Decode;
    DecodeStable(a, b, max);
    DecodeShrinks(a, max);
    if Decode(a, max).Got? {
      var f, rest := Decode(a, max).frame, Decode(a, max).rest;
      DrainConcat(rest, b, max);
      var d := Drain(rest, max);
      var e := Drain(d.rest + b, max);
      assert [f] + (d.frames + e.frames) == [f] + d.frames + e.frames;
    }
  }

  /** A stream that is accepted as a whole is accepted from the start. */
  lemma {:induction false} RefusalStands(a: seq<byte>, b: seq<byte>, max: nat)
    requires Drain(a, max).refused
    ensures Drain(a + b, max).refused
    decreases |a|
  {
    hide Decode;
    DecodeStable(a, b, max);
    DecodeShrinks(a, max);
    if Decode(a, max).Got? {
      RefusalStands(Decode(a, max).rest, b, max);
    }
  }

  /**
   However a stream the codec accepts is cut into chunks, the loop takes out the same frames and leaves
   the same bytes as if it had arrived at once.
   */
  lemma {:induction false} ChunkingIsInvisible(chunks: seq<seq<byte>>, max: nat)
    requires !Drain(Flatten(chunks), max).refused
    ensures Feed(chunks, max) == Drain(Flatten(chunks), max)
  {
    hide Decode;
    if chunks == [] {
      EmptyDrains(max);
    } else {
      var before, last := chunks[..|chunks| - 1], chunks[|chunks| - 1];
      if Drain(Flatten(before), max).refused {
        RefusalStands(Flatten(before), last, max);
      }
      ChunkingIsInvisible(before, max);
      DrainConcat(Flatten(before), last, max);
    }
  }

  lemma {:induction false} EmptyDrains(max: nat)
    ensures Drain([], max) == Drained([], [], false)
  {
  }

  function EncodeAll(fs: seq<Frame>): seq<byte> {
    if fs == [] then [] else Encode(fs[0]) + EncodeAll(fs[1..])
  }

  lemma {:induction false} DrainEncoded(fs: seq<Frame>, tail: seq<byte>, max: nat)
    requires forall i :: 0 <= i < |fs| ==> WellFormed(fs[i], max)
    requires Decode(tail, max) == Incomplete
    ensures Drain(EncodeAll(fs) + tail, max) == Drained(fs, tail, false)
  {
    hide Decode;
    hide Encode;
    if fs == [] {
      assert EncodeAll(fs) + tail == tail;
    } else {
      DrainEncoded(fs[1..], tail, max);
      DecodeEncode(fs[0], EncodeAll(fs[1..]) + tail, max);
      assert EncodeAll(fs) + tail == Encode(fs[0]) + (EncodeAll(fs[1..]) + tail);
      assert [fs[0]] + fs[1..] == fs;
    }
  }

  /**
   The encodings of any well-formed frames, cut into chunks anywhere, come out as exactly those frames in
   order; the buffer ends with what follows them, which is nothing when nothing does.
   */
  lemma {:induction false} AnyChunkingDecodes(fs: seq<Frame>, tail: seq<byte>, chunks: seq<seq<byte>>, max: nat)
    requires forall i :: 0 <= i < |fs| ==> WellFormed(fs[i], max)
    requires Decode(tail, max) == Incomplete
    requires Flatten(chunks) == EncodeAll(fs) + tail
    ensures Feed(chunks, max) == Drained(fs, tail, false)
  {
    hide *;
    DrainEncoded(fs, tail, max);
    ChunkingIsInvisible(chunks, max);
  }
}
