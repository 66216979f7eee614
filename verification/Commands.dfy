/**
 PUB and SUB commands. A PUB is read by two paths: the general one decodes a frame and then the command, the
 fast one peeks at the buffer and slices the command straight out of it.
 */
module Commands {
  import opened Wrappers
  import opened Bytes
  import opened Frames
  import opened Headers

  datatype PublishCommand = PublishCommand(
    subject: Text, payload: seq<byte>, reply: Option<Text>, headers: Option<map<Text, Text>>)

  function SectionHeaders(section: seq<byte>): Result<Option<map<Text, Text>>, ProtocolError> {
    if section == [] then Success(None)
    else
      match DecodeHeaders(section)
      case Failure(e) => Failure(e)
      case Success(m) => Success(Some(m))
  }

  // The general path

  /** The reply subject and where the data starts, counted from the end of the subject. */
  function LenientReply(rest: seq<byte>): (r: (Option<Text>, nat))
    ensures r.1 <= |rest|
  {
    if |rest| >= 2 then
      var replyLen := Word(rest, 0, 2);
      if |rest| >= 2 + replyLen && replyLen > 0 then (Some(rest[2..2 + replyLen]), 2 + replyLen) else (None, 2)
    else (None, 0)
  }

  function PublishOf(payload: seq<byte>, section: seq<byte>): Result<PublishCommand, ProtocolError> {
    if |payload| < 2 then Failure(DecodingError("PUB frame too short"))
    else
      var subjectLen := Word(payload, 0, 2);
      if |payload| < 2 + subjectLen then Failure(DecodingError("PUB subject truncated"))
      else
        var (reply, start) := LenientReply(payload[2 + subjectLen..]);
        match SectionHeaders(section)
        case Failure(e) => Failure(e)
        case Success(headers) =>
          Success(PublishCommand(payload[2..2 + subjectLen], payload[2 + subjectLen + start..], reply, headers))
  }

  /** Either path: wait for more bytes, a command with its correlation id and the bytes after it, or an error. */
  datatype Outcome =
    | Wait
    | Publish(command: PublishCommand, correlationId: nat, rest: seq<byte>)
    | Fault(error: ProtocolError)

  function GeneralPath(buf: seq<byte>, max: nat): Outcome {
    match Decode(buf, max)
    case Incomplete => Wait
    case Refused(e, _) => Fault(e)
    case Got(f, rest) =>
      match PublishOf(f.payload, f.headers)
      case Failure(e) => Fault(e)
      case Success(c) => Publish(c, f.header.correlationId, rest)
  }

  // The fast path

  predicate NextFrameIsPub(buf: seq<byte>) {
    |buf| >= HEADER_SIZE && buf[3] == PUB
  }

  datatype FrameLayout = FrameLayout(
    correlationId: nat, headerStart: nat, headerEnd: nat, payloadStart: nat, payloadEnd: nat, total: nat)

  function PeekLayout(buf: seq<byte>, max: nat): Result<Option<FrameLayout>, ProtocolError> {
    if |buf| < HEADER_SIZE then Success(None)
    else
      var headerLen := Word(buf, 14, 4);
      var payloadLen := Word(buf, 18, 4);
      var total := HEADER_SIZE + headerLen + payloadLen;
      if total > max then Failure(FrameTooLarge(total, max))
      else if |buf| < total then Success(None)
      else if Word(buf, 0, 2) != MAGIC then Failure(InvalidMagic(Word(buf, 0, 2)))
      else if buf[2] != VERSION then Failure(UnsupportedVersion(buf[2]))
      else if buf[3] != PUB then Failure(UnknownFrameType(buf[3]))
      else
        Success(Some(FrameLayout(Word(buf, 6, 8), HEADER_SIZE, HEADER_SIZE + headerLen, HEADER_SIZE + headerLen,
                                 HEADER_SIZE + headerLen + payloadLen, total)))
  }

  function PeekTotal(buf: seq<byte>, max: nat): Result<Option<nat>, ProtocolError> {
    if |buf| < HEADER_SIZE then Success(None)
    else
      var total := HEADER_SIZE + Word(buf, 14, 4) + Word(buf, 18, 4);
      if total > max then Failure(FrameTooLarge(total, max))
      else if |buf| < total then Success(None)
      else if Word(buf, 0, 2) != MAGIC then Failure(InvalidMagic(Word(buf, 0, 2)))
      else if buf[2] != VERSION then Failure(UnsupportedVersion(buf[2]))
      else if buf[3] != PUB then Failure(UnknownFrameType(buf[3]))
      else Success(Some(total))
  }

  /** Subject, reply and data as ranges of the payload; the data runs to its end. */
  datatype PayloadLayout = PayloadLayout(subjectEnd: nat, reply: Option<(nat, nat)>, dataStart: nat)

  function ParsePayload(payload: seq<byte>): (r: Result<PayloadLayout, ProtocolError>)
    ensures r.Success? ==> 2 <= r.value.subjectEnd <= r.value.dataStart <= |payload|
    ensures r.Success? && r.value.reply.Some? ==>
              r.value.reply.value.0 <= r.value.reply.value.1 <= |payload|
  {
    if |payload| < 2 then Failure(DecodingError("PUB frame too short"))
    else
      var subjectEnd := 2 + Word(payload, 0, 2);
      if |payload| < subjectEnd then Failure(DecodingError("PUB subject truncated"))
      else if |payload| < subjectEnd + 2 then Failure(DecodingError("PUB reply length missing"))
      else
        var replyLen := Word(payload, subjectEnd, 2);
        var replyEnd := subjectEnd + 2 + replyLen;
        if |payload| < replyEnd then Failure(DecodingError("PUB reply truncated"))
        else
          Success(PayloadLayout(subjectEnd, if replyLen > 0 then Some((subjectEnd + 2, replyEnd)) else None, replyEnd))
  }

  function SlicePublish(payload: seq<byte>, section: seq<byte>): Result<PublishCommand, ProtocolError> {
    match ParsePayload(payload)
    case Failure(e) => Failure(e)
    case Success(l) =>
      match SectionHeaders(section)
      case Failure(e) => Failure(e)
      case Success(headers) =>
        var reply := if l.reply.Some? then Some(payload[l.reply.value.0..l.reply.value.1]) else None;
        Success(PublishCommand(payload[2..l.subjectEnd], payload[l.dataStart..], reply, headers))
  }

  function FastPath(buf: seq<byte>, max: nat): Outcome {
    match PeekLayout(buf, max)
    case Failure(e) => Fault(e)
    case Success(None) => Wait
    case Success(Some(l)) =>
      match SlicePublish(buf[l.payloadStart..l.payloadEnd], buf[l.headerStart..l.headerEnd])
      case Failure(e) => Fault(e)
      case Success(c) => Publish(c, l.correlationId, buf[l.total..])
  }

  // Agreement

  /** The payload holds its reply field in full. */
  predicate ReplyComplete(payload: seq<byte>) {
    && |payload| >= 2
    && |payload| >= 4 + Word(payload, 0, 2)
    && |payload| >= 4 + Word(payload, 0, 2) + Word(payload, 2 + Word(payload, 0, 2), 2)
  }

  lemma {:induction false} WordInSuffix(t: seq<byte>, from: nat, n: nat)
    requires from + n <= |t|
    ensures Word(t[from..], 0, n) == Word(t, from, n)
  {
    WordIsUn(t, from, t[from..from + n]);
    WordIsUn(t[from..], 0, t[from..from + n]);
  }

  /** The strict parser succeeds exactly on payloads whose reply field is whole. */
  lemma {:induction false} ParsesIffComplete(payload: seq<byte>)
    ensures ParsePayload(payload).Success? <==> ReplyComplete(payload)
  {
  }

  /** On a whole reply field the two ways of slicing agree, header errors included. */
  lemma {:induction false} SlicesAgree(payload: seq<byte>, section: seq<byte>)
    requires ReplyComplete(payload)
    ensures SlicePublish(payload, section) == PublishOf(payload, section)
  {
    hide SectionHeaders;
    var subjectEnd := 2 + Word(payload, 0, 2);
    var rest := payload[subjectEnd..];
    WordInSuffix(payload, subjectEnd, 2);
    var replyLen := Word(rest, 0, 2);
    assert rest[2..2 + replyLen] == payload[subjectEnd + 2..subjectEnd + 2 + replyLen];
  }

  /** The fast path's checks are the codec's: same waiting, same refusals, same parts. */
  lemma {:induction false} PeekIsDecode(buf: seq<byte>, max: nat)
    requires NextFrameIsPub(buf)
    ensures match Decode(buf, max)
            case Incomplete => PeekLayout(buf, max) == Success(None)
            case Refused(e, _) => PeekLayout(buf, max) == Failure(e)
            case Got(f, rest) =>
              PeekLayout(buf, max).Success? && PeekLayout(buf, max).value.Some? &&
              var l := PeekLayout(buf, max).value.value;
              l.correlationId == f.header.correlationId && l.total <= |buf| && buf[l.total..] == rest &&
              l.headerStart <= l.headerEnd <= |buf| && buf[l.headerStart..l.headerEnd] == f.headers &&
              l.payloadStart <= l.payloadEnd <= |buf| && buf[l.payloadStart..l.payloadEnd] == f.payload
  {
    WordInPrefix(buf, HEADER_SIZE, 0, 2);
    WordInPrefix(buf, HEADER_SIZE, 6, 8);
  }

  /** `peek_pub_frame_total` answers what the layout says, error for error. */
  lemma {:induction false} TotalsAgree(buf: seq<byte>, max: nat)
    ensures match PeekLayout(buf, max)
            case Failure(e) => PeekTotal(buf, max) == Failure(e)
            case Success(None) => PeekTotal(buf, max) == Success(None)
            case Success(Some(l)) =>
              PeekTotal(buf, max) == Success(Some(l.total)) && HEADER_SIZE <= l.total <= |buf| && l.total <= max
  {
  }

  /**
   The two paths wait together and refuse the same frames with the same error. On a frame the codec
   accepts, the fast path answers what the general path does when the reply field is whole, and an error
   otherwise.
   */
  lemma {:induction false} PathsCompared(buf: seq<byte>, max: nat)
    requires NextFrameIsPub(buf)
    ensures FastPath(buf, max).Wait? <==> GeneralPath(buf, max).Wait?
    ensures Decode(buf, max).Refused? ==> FastPath(buf, max) == GeneralPath(buf, max)
    ensures Decode(buf, max).Got? ==>
              if ReplyComplete(Decode(buf, max).frame.payload) then FastPath(buf, max) == GeneralPath(buf, max)
              else FastPath(buf, max).Fault?
  {
    hide Decode;
    hide PeekLayout;
    hide PublishOf;
    hide ParsePayload;
    hide ReplyComplete;
    PeekIsDecode(buf, max);
    if Decode(buf, max).Got? {
      var f := Decode(buf, max).frame;
      ParsesIffComplete(f.payload);
      if ReplyComplete(f.payload) {
        SlicesAgree(f.payload, f.headers);
      }
    }
  }

  /** Whatever the fast path publishes, the general path publishes too, and leaves the same bytes. */
  lemma {:induction false} FastPathIsGeneral(buf: seq<byte>, max: nat)
    requires NextFrameIsPub(buf) && FastPath(buf, max).Publish?
    ensures GeneralPath(buf, max) == FastPath(buf, max)
  {
    hide *;
    PathsCompared(buf, max);
    OnlyGotPublishes(buf, max);
  }

  lemma {:induction false} OnlyGotPublishes(buf: seq<byte>, max: nat)
    requires NextFrameIsPub(buf)
    ensures Decode(buf, max).Incomplete? <==> GeneralPath(buf, max).Wait?
    ensures GeneralPath(buf, max).Publish? ==> Decode(buf, max).Got?
    ensures Decode(buf, max).Refused? ==> GeneralPath(buf, max).Fault?
  {
    hide Decode;
    hide PublishOf;
  }

  /** Of what the general path publishes, the fast path misses exactly the missing and the truncated replies. */
  lemma {:induction false} FastPathMissesIff(buf: seq<byte>, max: nat)
    requires NextFrameIsPub(buf) && GeneralPath(buf, max).Publish?
    ensures Decode(buf, max).Got?
    ensures FastPath(buf, max) == GeneralPath(buf, max) <==> ReplyComplete(Decode(buf, max).frame.payload)
  {
    hide *;
    PathsCompared(buf, max);
    OnlyGotPublishes(buf, max);
  }

  /** There the general path takes the message without a reply, and what is left of the field as data. */
  lemma {:induction false} IncompleteReplyIsDropped(payload: seq<byte>, section: seq<byte>)
    requires PublishOf(payload, section).Success? && !ReplyComplete(payload)
    ensures var subjectEnd := 2 + Word(payload, 0, 2);
            var c := PublishOf(payload, section).value;
            && c.reply == None && c.subject == payload[2..subjectEnd]
            && c.payload == payload[if |payload| < subjectEnd + 2 then subjectEnd else subjectEnd + 2..]
  {
    hide SectionHeaders;
    var subjectEnd := 2 + Word(payload, 0, 2);
    if |payload| >= subjectEnd + 2 {
      WordInSuffix(payload, subjectEnd, 2);
    }
  }
}
