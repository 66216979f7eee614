/** Messages between client and server: PUB and SUB one way, MSG the other, each undone by its reader. */
module Messages {
  import opened Wrappers
  import opened Bytes
  import opened Frames
  import opened FrameBuffer
  import opened Headers
  import opened Commands

  const SUB: byte := 0x30

  function ReplyBytes(reply: Option<Text>): Text {
    if reply.Some? then reply.value else []
  }

  /** A frame of the current version holding these parts, its lengths cut to 32 bits. */
  function FrameOf(frameType: byte, correlationId: nat, section: seq<byte>, payload: seq<byte>): Frame {
    Frame(FrameHeader(MAGIC, VERSION, frameType, 0, correlationId, |section| % U32, |payload| % U32), section, payload)
  }

  lemma {:induction false} FrameOfIsWellFormed(
    frameType: byte, correlationId: nat, section: seq<byte>, payload: seq<byte>, max: nat)
    requires correlationId < U64 && |section| < U32 && |payload| < U32
    requires HEADER_SIZE + |section| + |payload| <= max
    ensures WellFormed(FrameOf(frameType, correlationId, section, payload), max)
  {
  }

  /** The header section: absent, or the map in some order. */
  function Section(headers: Option<seq<Pair>>): seq<byte> {
    if headers.Some? then EncodeListing(headers.value) else []
  }

  ghost predicate ListsSection(headers: Option<seq<Pair>>, m: Option<map<Text, Text>>) {
    match m
    case None => headers == None
    case Some(h) => headers.Some? && Lists(headers.value, h) && ListingFits(headers.value)
  }

  lemma {:induction false} SectionReadsBack(headers: Option<seq<Pair>>, m: Option<map<Text, Text>>)
    requires ListsSection(headers, m)
    ensures SectionHeaders(Section(headers)) == Success(m)
  {
    hide DecodeHeaders;
    hide Lists;
    hide ListingFits;
    if m.Some? {
      assert EncodeListing(headers.value) + [] == EncodeListing(headers.value);
      HeadersReadBack(headers.value, m.value, []);
      assert Be(2, |headers.value|) != [];
    }
  }

  /** Subject and reply, each behind its length, then what follows. */
  function Addressed(subject: Text, reply: Option<Text>, rest: seq<byte>): seq<byte> {
    Be(2, |subject|) + subject + Be(2, |ReplyBytes(reply)|) + ReplyBytes(reply) + rest
  }

  ghost predicate AddressFits(subject: Text, reply: Option<Text>) {
    |subject| < U16 && (reply.Some? ==> 0 < |reply.value| < U16)
  }

  lemma {:induction false} AddressReadsBack(subject: Text, reply: Option<Text>, rest: seq<byte>)
    requires AddressFits(subject, reply)
    ensures var p := Addressed(subject, reply, rest);
            var at := 4 + |subject| + |ReplyBytes(reply)|;
            && |p| == at + |rest|
            && Word(p, 0, 2) == |subject| && p[2..2 + |subject|] == subject
            && Word(p, 2 + |subject|, 2) == |ReplyBytes(reply)|
            && p[4 + |subject|..at] == ReplyBytes(reply)
            && p[at..] == rest
  {
    hide Be;
    var p := Addressed(subject, reply, rest);
    Widths();
    AddressSlices(Be(2, |subject|), subject, Be(2, |ReplyBytes(reply)|), ReplyBytes(reply), rest);
    WordAt(p, 0, 2, |subject|);
    WordAt(p, 2 + |subject|, 2, |ReplyBytes(reply)|);
  }

  lemma {:induction false} AddressSlices(a: seq<byte>, s: seq<byte>, b: seq<byte>, r: seq<byte>, rest: seq<byte>)
    requires |a| == 2 && |b| == 2
    ensures var p := a + s + b + r + rest;
            && p[0..2] == a && p[2..2 + |s|] == s && p[2 + |s|..4 + |s|] == b
            && p[4 + |s|..4 + |s| + |r|] == r && p[4 + |s| + |r|..] == rest
  {
  }

  // PUB

  /** The PUB frame a client sends. */
  function PublishFrame(subject: Text, reply: Option<Text>, payload: seq<byte>, headers: Option<seq<Pair>>): Frame {
    FrameOf(PUB, 0, Section(headers), Addressed(subject, reply, payload))
  }

  lemma {:induction false} PublishPayloadReadsBack(
    subject: Text, reply: Option<Text>, payload: seq<byte>, headers: Option<seq<Pair>>, m: Option<map<Text, Text>>)
    requires AddressFits(subject, reply) && ListsSection(headers, m)
    ensures var p := Addressed(subject, reply, payload);
            ReplyComplete(p) && PublishOf(p, Section(headers)) == Success(PublishCommand(subject, payload, reply, m))
  {
    hide SectionHeaders;
    hide ListsSection;
    hide Addressed;
    var p := Addressed(subject, reply, payload);
    AddressReadsBack(subject, reply, payload);
    SectionReadsBack(headers, m);
    WordInSuffix(p, 2 + |subject|, 2);
    var rest := p[2 + |subject|..];
    assert rest[2..2 + |ReplyBytes(reply)|] == p[4 + |subject|..4 + |subject| + |ReplyBytes(reply)|];
  }

  /** What a client publishes, the server reads, by either path and whatever follows it in the buffer. */
  lemma {:induction false} PublishReadsBack(
    subject: Text, reply: Option<Text>, payload: seq<byte>, headers: Option<seq<Pair>>, m: Option<map<Text, Text>>,
    rest: seq<byte>, max: nat)
    requires AddressFits(subject, reply) && ListsSection(headers, m)
    requires WellFormed(PublishFrame(subject, reply, payload, headers), max)
    ensures var buf := Encode(PublishFrame(subject, reply, payload, headers)) + rest;
            && NextFrameIsPub(buf) && buf[3] == 0x20
            && GeneralPath(buf, max) == Publish(PublishCommand(subject, payload, reply, m), 0, rest)
            && FastPath(buf, max) == GeneralPath(buf, max)
  {
    hide PublishOf;
    hide ReplyComplete;
    hide FastPath;
    hide Decode;
    hide WellFormed;
    hide Encode;
    var f := PublishFrame(subject, reply, payload, headers);
    var buf := Encode(f) + rest;
    StartsWithType(f, rest, max);
    DecodeEncode(f, rest, max);
    PublishPayloadReadsBack(subject, reply, payload, headers, m);
    PathsCompared(buf, max);
  }

  lemma {:induction false} StartsWithType(f: Frame, rest: seq<byte>, max: nat)
    requires WellFormed(f, max)
    ensures |Encode(f) + rest| >= HEADER_SIZE && (Encode(f) + rest)[3] == f.header.frameType
  {
    hide EncodeHeader;
    HeaderReadsBack(f.header, f.headers + f.payload + rest);
    assert Encode(f) + rest == EncodeHeader(f.header) + (f.headers + f.payload + rest);
  }

  /** A PUB whose payload stops after the subject: taken by the general path, refused by the fast one. */
  lemma {:induction false} MissingReplySplitsThePaths(subject: Text, max: nat)
    requires |subject| < U16 && HEADER_SIZE + 2 + |subject| <= max
    ensures var buf := Encode(FrameOf(PUB, 0, [], Be(2, |subject|) + subject));
            && NextFrameIsPub(buf)
            && GeneralPath(buf, max) == Publish(PublishCommand(subject, [], None, None), 0, [])
            && FastPath(buf, max).Fault?
  {
    hide Be;
    hide Decode;
    hide FastPath;
    hide Encode;
    var p := Be(2, |subject|) + subject;
    var f := FrameOf(PUB, 0, [], p);
    FrameOfIsWellFormed(PUB, 0, [], p, max);
    var buf := Encode(f);
    assert buf + [] == buf;
    StartsWithType(f, [], max);
    DecodeEncode(f, [], max);
    Widths();
    assert p[0..2] == Be(2, |subject|);
    WordAt(p, 0, 2, |subject|);
    assert p[2..] == subject;
    PathsCompared(buf, max);
  }

  /** A PUB whose header section was cut behind its count is refused by either path. */
  lemma {:induction false} CutHeadersAreRefused(
    id: nat, ps: seq<Pair>, c: nat, payload: seq<byte>, rest: seq<byte>, max: nat)
    requires ListingFits(ps) && 2 <= c < |EncodeListing(ps)|
    requires WellFormed(FrameOf(PUB, id, EncodeListing(ps)[..c], payload), max)
    ensures var buf := Encode(FrameOf(PUB, id, EncodeListing(ps)[..c], payload)) + rest;
            NextFrameIsPub(buf) && GeneralPath(buf, max).Fault? && FastPath(buf, max).Fault?
  {
    hide Encode;
    hide Decode;
    hide FastPath;
    hide DecodeHeaders;
    hide EncodeListing;
    var f := FrameOf(PUB, id, EncodeListing(ps)[..c], payload);
    StartsWithType(f, rest, max);
    DecodeEncode(f, rest, max);
    CutSectionFails(ps, c);
    PathsCompared(Encode(f) + rest, max);
  }

  // SUB

  /** The SUB payload a client sends: lengths in one byte. */
  function SubPayload(pattern: Text, group: Option<Text>): seq<byte> {
    [|pattern| % 256] + pattern + (if group.Some? then [|group.value| % 256] + group.value else [])
  }

  function SubOf(payload: seq<byte>): Result<(Text, Option<Text>), ProtocolError> {
    if payload == [] then Failure(DecodingError("SUB frame empty"))
    else
      var n: nat := payload[0];
      if |payload| < 1 + n then Failure(DecodingError("SUB pattern truncated"))
      else
        var group :=
          if |payload| > 2 + n then
            var g: nat := payload[1 + n];
            if |payload| >= 2 + n + g && g > 0 then Some(payload[2 + n..2 + n + g]) else None
          else None;
        Success((payload[1..1 + n], group))
  }

  /** A SUB is read as it was written if and only if the names fit one length byte and the group has one. */
  lemma {:induction false} SubReadsBackIff(pattern: Text, group: Option<Text>)
    ensures SubOf(SubPayload(pattern, group)) == Success((pattern, group)) <==>
            |pattern| < 256 && (group.Some? ==> 0 < |group.value| < 256)
  {
    var p := SubPayload(pattern, group);
    var n := |pattern| % 256;
    if |pattern| < 256 {
      assert p[1..1 + n] == pattern;
      if group.Some? {
        var g := group.value;
        assert p[1 + n] == |g| % 256;
        assert p[2 + n..] == g;
        if 0 < |g| < 256 {
          assert p[2 + n..2 + n + |g|] == g;
        } else if |g| >= 256 {
          assert |g| % 256 < |g|;
        }
      }
    } else {
      assert |p[1..1 + n]| < |pattern|;
    }
  }

  /** A group behind its length: taken when it is there, dropped when it is empty or cut short. */
  lemma {:induction false} SubGroupIs(pattern: Text, g: byte, given: seq<byte>)
    requires |pattern| < 256
    ensures SubOf([|pattern|] + pattern + [g] + given)
         == Success((pattern, if 0 < g <= |given| then Some(given[..g]) else None))
    ensures forall c :: 0 <= c <= |pattern| ==> SubOf(([|pattern|] + pattern)[..c]).Failure?
  {
    var p, n := [|pattern|] + pattern + [g] + given, |pattern|;
    assert p[1..1 + n] == pattern && p[2 + n..] == given;
    if 0 < g <= |given| {
      assert p[2 + n..2 + n + g] == given[..g];
    }
  }

  // MSG

  datatype Delivery = Delivery(
    subject: Text, reply: Option<Text>, subscription: nat, payload: seq<byte>, headers: Option<map<Text, Text>>)

  /** Subject, reply, subscription id and data. */
  function MsgPayload(d: Delivery): seq<byte> {
    Addressed(d.subject, d.reply, Be(8, d.subscription) + d.payload)
  }

  /** The MSG frame for a delivery, its header map written in the order given. */
  function MsgFrame(d: Delivery, order: Option<seq<Pair>>): Frame {
    FrameOf(MSG, d.subscription, Section(order), MsgPayload(d))
  }

  /** What the client makes of a MSG: a slice out of range stops the reader. */
  datatype Received = Message(delivery: Delivery) | Rejected(error: ProtocolError) | Panic

  function Receive(f: Frame): Received {
    var p := f.payload;
    if |p| < 2 then Rejected(DecodingError("MSG too short"))
    else
      var subjectLen := Word(p, 0, 2);
      if |p| < 4 + subjectLen then Rejected(DecodingError("MSG subject truncated"))
      else
        var replyLen := Word(p, 2 + subjectLen, 2);
        var at := 4 + subjectLen + replyLen;
        if replyLen > 0 && |p| < at then Panic
        else if |p| < at + 8 then Rejected(DecodingError("MSG sub_id truncated"))
        else
          match SectionHeaders(f.headers)
          case Failure(e) => Rejected(e)
          case Success(headers) =>
            Message(Delivery(p[2..2 + subjectLen], if replyLen > 0 then Some(p[4 + subjectLen..at]) else None,
                             Word(p, at, 8), p[at + 8..], headers))
  }

  /** A MSG that ends inside the reply it announces stops the client's reader; a whole reply does not. */
  lemma {:induction false} CutReplyPanicsIff(f: Frame, subject: Text, n: nat, given: seq<byte>)
    requires |subject| < U16 && 0 < n < U16 && f.payload == Be(2, |subject|) + subject + Be(2, n) + given
    ensures Receive(f) == Panic <==> |given| < n
  {
    hide Be;
    hide SectionHeaders;
    var p := f.payload;
    Widths();
    AddressSlices(Be(2, |subject|), subject, Be(2, n), given, []);
    assert p == Be(2, |subject|) + subject + Be(2, n) + given + [];
    WordAt(p, 0, 2, |subject|);
    WordAt(p, 2 + |subject|, 2, n);
  }

  ghost predicate MsgFits(d: Delivery, order: Option<seq<Pair>>, max: nat) {
    && AddressFits(d.subject, d.reply)
    && d.subscription < U64
    && ListsSection(order, d.headers)
    && |Section(order)| < U32 && |MsgPayload(d)| < U32
    && HEADER_SIZE + |Section(order)| + |MsgPayload(d)| <= max
  }

  lemma {:induction false} TailReadsBack(id: nat, payload: seq<byte>)
    requires id < U64
    ensures var t := Be(8, id) + payload; Word(t, 0, 8) == id && t[8..] == payload
  {
    hide Be;
    var t := Be(8, id) + payload;
    Widths();
    assert t[0..8] == Be(8, id);
    WordAt(t, 0, 8, id);
  }

  lemma {:induction false} ReceiveFrame(d: Delivery, order: Option<seq<Pair>>)
    requires AddressFits(d.subject, d.reply) && d.subscription < U64 && ListsSection(order, d.headers)
    ensures Receive(MsgFrame(d, order)) == Message(d)
  {
    hide SectionHeaders;
    hide ListsSection;
    hide Addressed;
    hide Be;
    var p := MsgPayload(d);
    var at := 4 + |d.subject| + |ReplyBytes(d.reply)|;
    AddressReadsBack(d.subject, d.reply, Be(8, d.subscription) + d.payload);
    SectionReadsBack(order, d.headers);
    TailReadsBack(d.subscription, d.payload);
    WordInSuffix(p, at, 8);
    assert p[at..][8..] == p[at + 8..];
  }

  /**
   What the server encodes the client decodes: the same subject, reply, subscription id, payload and
   header map, whatever order the map was written in and whatever follows the frame.
   */
  lemma {:induction false} MsgReadsBack(d: Delivery, order: Option<seq<Pair>>, rest: seq<byte>, max: nat)
    requires MsgFits(d, order, max)
    ensures Decode(Encode(MsgFrame(d, order)) + rest, max) == Got(MsgFrame(d, order), rest)
    ensures MsgFrame(d, order).header
         == FrameHeader(0x5A4D, 1, 0x21, 0, d.subscription, |Section(order)|, |MsgPayload(d)|)
    ensures Receive(MsgFrame(d, order)) == Message(d)
  {
    hide ListsSection;
    hide Addressed;
    hide Section;
    hide Decode;
    hide Encode;
    hide Receive;
    FrameOfIsWellFormed(MSG, d.subscription, Section(order), MsgPayload(d), max);
    DecodeEncode(MsgFrame(d, order), rest, max);
    ReceiveFrame(d, order);
  }

  /** `encode_msg_into`: the lengths are announced before anything is written, and are those of what follows. */
  method EncodeMsgInto(d: Delivery, buf: Buffer) returns (ghost order: Option<seq<Pair>>)
    modifies buf
    ensures order.Some? == d.headers.Some?
    ensures order.Some? ==> Lists(order.value, d.headers.value)
    ensures buf.data == old(buf.data) + Encode(MsgFrame(d, order))
  {
    hide Be;
    hide EncodeHeader;
    hide EncodeListing;
    var replyLen := if d.reply.Some? then |d.reply.value| else 0;
    var payloadLen := 2 + |d.subject| + 2 + replyLen + 8 + |d.payload|;
    var headersLen := 0;
    if d.headers.Some? {
      headersLen := EncodedHeadersLen(d.headers.value);
    }
    var header := FrameHeader(MAGIC, VERSION, MSG, 0, d.subscription, headersLen % U32, payloadLen % U32);
    buf.EncodeHeaderInto(header);
    order := None;
    if d.headers.Some? {
      ghost var listing := EncodeHeadersInto(d.headers.value, buf);
      order := Some(listing);
    }
    PutMsgPayload(d, buf);
    assert MsgFrame(d, order).header == header;
    Joined(old(buf.data), EncodeHeader(header), Section(order), MsgPayload(d));
  }

  method PutMsgPayload(d: Delivery, buf: Buffer)
    modifies buf
    ensures buf.data == old(buf.data) + MsgPayload(d)
  {
    hide Be;
    buf.Put(2, |d.subject|);
    buf.Extend(d.subject);
    if d.reply.Some? {
      buf.Put(2, |d.reply.value|);
      buf.Extend(d.reply.value);
    } else {
      buf.Put(2, 0);
    }
    buf.Put(8, d.subscription);
    buf.Extend(d.payload);
    JoinedSix(old(buf.data), Be(2, |d.subject|), d.subject, Be(2, |ReplyBytes(d.reply)|), ReplyBytes(d.reply),
              Be(8, d.subscription), d.payload);
  }

  lemma {:induction false} Joined(pre: seq<byte>, a: seq<byte>, b: seq<byte>, c: seq<byte>)
    ensures pre + a + b + c == pre + (a + b + c)
    ensures pre + a + [] == pre + a
  {
  }

  lemma {:induction false} JoinedSix(
    pre: seq<byte>, a: seq<byte>, s: seq<byte>, b: seq<byte>, r: seq<byte>, i: seq<byte>, p: seq<byte>)
    ensures pre + a + s + b + r + i + p == pre + (a + s + b + r + (i + p))
    ensures pre + a + s + b + [] == pre + a + s + b
  {
  }
}
