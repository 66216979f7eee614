/** Encoding into and decoding out of a buffer in place. */
module FrameBuffer {
  import opened Wrappers
  import opened Bytes
  import opened Frames

  /** A growable buffer written at its end and read from its front. */
  class Buffer {
    var data: seq<byte>

    constructor ()
      ensures data == []
    {
      data := [];
    }

    method Put(n: nat, v: nat)
      modifies this
      ensures data == old(data) + Be(n, v)
    {
      data := data + Be(n, v);
    }

    method PutByte(b: byte)
      modifies this
      ensures data == old(data) + [b]
    {
      data := data + [b];
    }

    method Extend(b: seq<byte>)
      modifies this
      ensures data == old(data) + b
    {
      data := data + b;
    }

    /** Take the first `n` bytes off. */
    method SplitTo(n: nat) returns (front: seq<byte>)
      requires n <= |data|
      modifies this
      ensures front == old(data)[..n] && data == old(data)[n..]
    {
      front := data[..n];
      data := data[n..];
    }

    method Clear()
      modifies this
      ensures data == []
    {
      data := [];
    }

    method EncodeHeaderInto(h: FrameHeader)
      modifies this
      ensures data == old(data) + EncodeHeader(h)
    {
      Put(2, h.magic);
      PutByte(h.version);
      PutByte(h.frameType);
      Put(2, h.flags);
      Put(8, h.correlationId);
      Put(4, h.headerLen);
      Put(4, h.payloadLen);
      Appended(old(data), Be(2, h.magic), h.version, h.frameType, Be(2, h.flags), Be(8, h.correlationId),
               Be(4, h.headerLen), Be(4, h.payloadLen));
    }

    method EncodeInto(f: Frame)
      modifies this
      ensures data == old(data) + Encode(f)
    {
      hide EncodeHeader;
      EncodeHeaderInto(f.header);
      Extend(f.headers);
      Extend(f.payload);
      assert old(data) + EncodeHeader(f.header) + f.headers + f.payload ==
             old(data) + (EncodeHeader(f.header) + f.headers + f.payload);
    }

    /** Take the first frame off the buffer: nothing while it is incomplete, which changes nothing. */
    method DecodeFrom(max: nat) returns (r: Result<Option<Frame>, ProtocolError>)
      modifies this
      ensures match Decode(old(data), max)
              case Incomplete => r == Success(None) && data == old(data)
              case Got(f, rest) => r == Success(Some(f)) && data == rest
              case Refused(e, rest) => r == Failure(e) && data == rest
    {
      hide DecodeHeader;
      if |data| < HEADER_SIZE {
        return Success(None);
      }
      WordIsUn(data, 14, data[14..18]);
      WordIsUn(data, 18, data[18..22]);
      var headerLen := Un(data[14..18]);
      var payloadLen := Un(data[18..22]);
      var total := HEADER_SIZE + headerLen + payloadLen;
      if total > max {
        return Failure(FrameTooLarge(total, max));
      }
      if |data| < total {
        return Success(None);
      }
      var frame := SplitTo(total);
      assert frame[..HEADER_SIZE] == old(data)[..HEADER_SIZE];
      var header := DecodeHeader(frame[..HEADER_SIZE]);
      if header.Failure? {
        return Failure(header.error);
      }
      var headers := if headerLen > 0 then frame[HEADER_SIZE..HEADER_SIZE + headerLen] else [];
      var payload := if payloadLen > 0 then frame[HEADER_SIZE + headerLen..] else [];
      assert headers == old(data)[HEADER_SIZE..HEADER_SIZE + headerLen];
      assert payload == old(data)[HEADER_SIZE + headerLen..total];
      r := Success(Some(Frame(header.value, headers, payload)));
    }

    /** The reader's loop: frames are taken off until one is incomplete or refused. */
    method DrainFrames(max: nat) returns (frames: seq<Frame>)
      modifies this
      ensures Drained(frames, data, Drain(old(data), max).refused) == Drain(old(data), max)
    {
      hide Decode;
      hide Drain;
      hide Continues;
      frames := [];
      ContinuesFromStart(data, max);
      while true
        invariant Continues(frames, data, old(data), max)
        decreases |data|
      {
        DecodeShrinks(data, max);
        ContinueStep(frames, data, old(data), max);
        var r := DecodeFrom(max);
        if r.Success? && r.value.Some? {
          frames := frames + [r.value.value];
        } else {
          break;
        }
      }
    }
  }

  /** With `done` taken off, going on from `buf` completes the draining of `whole`. */
  ghost predicate Continues(done: seq<Frame>, buf: seq<byte>, whole: seq<byte>, max: nat) {
    var d := Drain(buf, max);
    Drain(whole, max) == Drained(done + d.frames, d.rest, d.refused)
  }

  lemma {:induction false} ContinuesFromStart(buf: seq<byte>, max: nat)
    ensures Continues([], buf, buf, max)
  {
    hide Drain;
  }

  lemma {:induction false} ContinueStep(done: seq<Frame>, buf: seq<byte>, whole: seq<byte>, max: nat)
    requires Continues(done, buf, whole, max)
    ensures match Decode(buf, max)
            case Incomplete => Drain(whole, max) == Drained(done, buf, false)
            case Refused(_, rest) => Drain(whole, max) == Drained(done, rest, true)
            case Got(f, rest) => Continues(done + [f], rest, whole, max)
  {
    hide Decode;
    if Decode(buf, max).Got? {
      var d := Drain(Decode(buf, max).rest, max);
      assert done + ([Decode(buf, max).frame] + d.frames) == done + [Decode(buf, max).frame] + d.frames;
    }
  }

  lemma {:induction false} Appended(
    pre: seq<byte>, a: seq<byte>, b: byte, c: byte, d: seq<byte>, e: seq<byte>, f: seq<byte>, g: seq<byte>)
    ensures pre + a + [b] + [c] + d + e + f + g == pre + (a + [b] + [c] + d + e + f + g)
  {
  }
}
