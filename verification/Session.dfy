/**
 The session's inner loop: PUB frames are taken off the read buffer in batches by the fast path, every
 other frame by the codec, until nothing complete is left. What the rest of the server answers, the
 permissions and whether anyone is subscribed may differ from pass to pass.
 */
module Session {
  import opened Wrappers
  import opened Bytes
  import opened Frames
  import opened Headers
  import opened Commands

  const PUB_BATCH_LIMIT: nat := 128
  const NO_SUB_PUB_BATCH_LIMIT: nat := 1024

  /** What a decoded frame does to the session: nothing, connect it, or end the loop (a refused CONNECT). */
  datatype Verdict = Carry | Connect | End

  datatype Env = Env(max: nat, subscribers: bool, unrestricted: bool, allows: Text -> bool, verdict: Frame -> Verdict)

  predicate Allowed(env: Env, subject: Text) {
    env.unrestricted || env.allows(subject)
  }

  /**
   A batch: what is left, how many frames were taken, the commands to publish and the ids refused; or the
   error that broke it off and the ids refused before that.
   */
  datatype Batch =
    | Taken(rest: seq<byte>, processed: nat, commands: seq<PublishCommand>, published: nat, denied: seq<nat>)
    | Broken(error: ProtocolError, refused: seq<nat>)

  /** With subscribers: every PUB is decoded, and published or refused. */
  function TakeBatch(env: Env, buf: seq<byte>, limit: nat): Batch {
    if limit == 0 || !NextFrameIsPub(buf) then Taken(buf, 0, [], 0, [])
    else
      match FastPath(buf, env.max)
      case Wait => Taken(buf, 0, [], 0, [])
      case Fault(e) => Broken(e, [])
      case Publish(c, id, rest) =>
        Sorted(env, c, id, TakeBatch(env, rest, limit - 1))
  }

  /** The batch with one more command in front, published or refused. */
  function Sorted(env: Env, c: PublishCommand, id: nat, batch: Batch): Batch {
    match batch
    case Broken(e, ids) => if Allowed(env, c.subject) then batch else Broken(e, [id] + ids)
    case Taken(rest, n, cs, p, ids) =>
      if Allowed(env, c.subject) then Taken(rest, n + 1, [c] + cs, p, ids)
      else Taken(rest, n + 1, cs, p, [id] + ids)
  }

  /** Without subscribers a PUB is only counted: by its size alone, or after a look at its subject. */
  function CountOne(env: Env, buf: seq<byte>): (r: Result<Option<(nat, bool, nat)>, ProtocolError>)
    ensures r.Success? && r.value.Some? ==> HEADER_SIZE <= r.value.value.0 <= |buf|
  {
    if env.unrestricted then
      match PeekTotal(buf, env.max)
      case Failure(e) => Failure(e)
      case Success(None) => Success(None)
      case Success(Some(total)) => Success(Some((total, true, 0)))
    else
      match PeekLayout(buf, env.max)
      case Failure(e) => Failure(e)
      case Success(None) => Success(None)
      case Success(Some(l)) =>
        match ParsePayload(buf[l.payloadStart..l.payloadEnd])
        case Failure(e) => Failure(e)
        case Success(p) =>
          var subject := buf[l.payloadStart..l.payloadEnd][2..p.subjectEnd];
          Success(Some((l.total, env.allows(subject), l.correlationId)))
  }

  function CountBatch(env: Env, buf: seq<byte>, limit: nat): Batch {
    if limit == 0 || !NextFrameIsPub(buf) then Taken(buf, 0, [], 0, [])
    else
      match CountOne(env, buf)
      case Failure(e) => Broken(e, [])
      case Success(None) => Taken(buf, 0, [], 0, [])
      case Success(Some(one)) =>
        Tallied(one.1, one.2, CountBatch(env, buf[one.0..], limit - 1))
  }

  /** The batch with one more PUB in front, counted or refused. */
  function Tallied(allowed: bool, id: nat, batch: Batch): Batch {
    match batch
    case Broken(e, ids) => if allowed then batch else Broken(e, [id] + ids)
    case Taken(rest, n, cs, p, ids) =>
      if allowed then Taken(rest, n + 1, cs, p + 1, ids) else Taken(rest, n + 1, cs, p, [id] + ids)
  }

  function PubBatch(env: Env, buf: seq<byte>): Batch {
    if env.subscribers then TakeBatch(env, buf, PUB_BATCH_LIMIT)
    else CountBatch(env, buf, NO_SUB_PUB_BATCH_LIMIT)
  }

  /** What a pass did. */
  datatype Event =
    | Batched(commands: seq<PublishCommand>, published: nat, denied: seq<nat>)
    | Decoded(frame: Frame)
    | Failed(error: ProtocolError, refused: seq<nat>)
    | Idle

  /** One pass: go around again, or leave the loop to read more bytes. */
  datatype Pass = Pass(goOn: bool, connected: bool, buf: seq<byte>, event: Event)

  function PassOver(env: Env, connected: bool, buf: seq<byte>): Pass {
    if connected && NextFrameIsPub(buf) then
      match PubBatch(env, buf)
      case Broken(e, ids) => Pass(true, connected, [], Failed(e, ids))
      case Taken(rest, n, cs, p, ids) => Pass(n > 0, connected, rest, if n > 0 then Batched(cs, p, ids) else Idle)
    else
      match Decode(buf, env.max)
      case Incomplete => Pass(false, connected, buf, Idle)
      case Refused(e, _) => Pass(true, connected, [], Failed(e, []))
      case Got(f, rest) => Pass(env.verdict(f) != End, connected || env.verdict(f) == Connect, rest, Event.Decoded(f))
  }

  // Every pass that goes on shrinks the buffer

  lemma {:induction false} FastPathShrinks(buf: seq<byte>, max: nat)
    requires NextFrameIsPub(buf) && FastPath(buf, max).Publish?
    ensures |FastPath(buf, max).rest| + HEADER_SIZE <= |buf|
  {
    TotalsAgree(buf, max);
  }

  lemma {:induction false} TakeBatchShrinks(env: Env, buf: seq<byte>, limit: nat)
    ensures TakeBatch(env, buf, limit).Taken? ==>
              |TakeBatch(env, buf, limit).rest| + HEADER_SIZE * TakeBatch(env, buf, limit).processed <= |buf|
    decreases limit
  {
    hide FastPath;
    if limit > 0 && NextFrameIsPub(buf) && FastPath(buf, env.max).Publish? {
      FastPathShrinks(buf, env.max);
      TakeBatchShrinks(env, FastPath(buf, env.max).rest, limit - 1);
    }
  }

  lemma {:induction false} CountBatchShrinks(env: Env, buf: seq<byte>, limit: nat)
    ensures CountBatch(env, buf, limit).Taken? ==>
              |CountBatch(env, buf, limit).rest| + HEADER_SIZE * CountBatch(env, buf, limit).processed <= |buf|
    decreases limit
  {
    hide CountOne;
    if limit > 0 && NextFrameIsPub(buf) && CountOne(env, buf).Success? && CountOne(env, buf).value.Some? {
      CountBatchShrinks(env, buf[CountOne(env, buf).value.value.0..], limit - 1);
    }
  }

  /** Each pass that goes on takes at least a frame header's worth of bytes off, or clears a buffer that long. */
  lemma {:induction false} PassShrinks(env: Env, connected: bool, buf: seq<byte>)
    ensures PassOver(env, connected, buf).goOn ==> |PassOver(env, connected, buf).buf| + HEADER_SIZE <= |buf|
  {
    hide TakeBatch;
    hide CountBatch;
    hide Decode;
    TakeBatchShrinks(env, buf, PUB_BATCH_LIMIT);
    CountBatchShrinks(env, buf, NO_SUB_PUB_BATCH_LIMIT);
    DecodeShrinks(buf, env.max);
  }

  /**
   A pass that fails clears the buffer, goes on and leaves the connection as it was; and a frame the codec
   refuses fails the pass with the codec's error, by either path.
   */
  lemma {:induction false} RefusalClears(env: Env, connected: bool, buf: seq<byte>)
    ensures PassOver(env, connected, buf).event.Failed? ==>
              PassOver(env, connected, buf) == Pass(true, connected, [], PassOver(env, connected, buf).event)
    ensures Decode(buf, env.max).Refused? ==>
              PassOver(env, connected, buf) == Pass(true, connected, [], Failed(Decode(buf, env.max).error, []))
  {
    hide Decode;
    hide PeekLayout;
    hide PeekTotal;
    hide SlicePublish;
    hide ParsePayload;
    if NextFrameIsPub(buf) {
      PeekIsDecode(buf, env.max);
      TotalsAgree(buf, env.max);
    }
  }

  // The loop

  datatype Looped = Looped(connected: bool, buf: seq<byte>, events: seq<Event>)

  /** The loop from pass `k` on; its recursion ends because every pass shrinks the buffer. */
  function Loop(envs: nat -> Env, k: nat, connected: bool, buf: seq<byte>): Looped
    decreases |buf|
  {
    PassShrinks(envs(k), connected, buf);
    var pass := PassOver(envs(k), connected, buf);
    if !pass.goOn then Looped(pass.connected, pass.buf, [pass.event])
    else
      var l := Loop(envs, k + 1, pass.connected, pass.buf);
      l.(events := [pass.event] + l.events)
  }

  /** The loop makes at most one pass for every 22 bytes it was given, and one more. */
  lemma {:induction false} LoopIsBounded(envs: nat -> Env, k: nat, connected: bool, buf: seq<byte>)
    ensures HEADER_SIZE * |Loop(envs, k, connected, buf).events| <= |buf| + HEADER_SIZE
    decreases |buf|
  {
    hide PassOver;
    PassShrinks(envs(k), connected, buf);
    var pass := PassOver(envs(k), connected, buf);
    if pass.goOn {
      LoopIsBounded(envs, k + 1, pass.connected, pass.buf);
    }
  }

  /** The frame that ends the loop, a refused CONNECT, is the last one decoded, connected or not; no other is. */
  lemma {:induction false} EndsTheLoopIff(envs: nat -> Env, k: nat, connected: bool, buf: seq<byte>, i: nat)
    requires i < |Loop(envs, k, connected, buf).events| && Loop(envs, k, connected, buf).events[i].Decoded?
    ensures envs(k + i).verdict(Loop(envs, k, connected, buf).events[i].frame) == End <==>
            i == |Loop(envs, k, connected, buf).events| - 1
    decreases |buf|
  {
    hide Decode;
    hide PubBatch;
    PassShrinks(envs(k), connected, buf);
    var pass := PassOver(envs(k), connected, buf);
    if pass.goOn {
      assert Loop(envs, k + 1, pass.connected, pass.buf).events != [];
      if i > 0 {
        EndsTheLoopIff(envs, k + 1, pass.connected, pass.buf, i - 1);
      }
    }
  }

  lemma {:induction false} IdleMeansIncomplete(env: Env, connected: bool, buf: seq<byte>)
    ensures PassOver(env, connected, buf).event == Idle ==>
              !PassOver(env, connected, buf).goOn && PassOver(env, connected, buf).buf == buf &&
              Decode(buf, env.max) == Incomplete
  {
    hide Decode;
    hide PeekLayout;
    if connected && NextFrameIsPub(buf) {
      PeekIsDecode(buf, env.max);
      TotalsAgree(buf, env.max);
    }
  }

  /** The loop ends on an incomplete frame, or on the pass that refused a CONNECT. */
  lemma {:induction false} LoopLeavesIncomplete(envs: nat -> Env, k: nat, connected: bool, buf: seq<byte>, max: nat)
    requires forall j :: envs(j).max == max
    ensures var l := Loop(envs, k, connected, buf);
            l.events != [] &&
            match l.events[|l.events| - 1]
            case Idle => Decode(l.buf, max) == Incomplete
            case Decoded(f) => envs(k + |l.events| - 1).verdict(f) == End
            case _ => false
    decreases |buf|
  {
    hide TakeBatch;
    hide CountBatch;
    hide Decode;
    PassShrinks(envs(k), connected, buf);
    IdleMeansIncomplete(envs(k), connected, buf);
    var pass := PassOver(envs(k), connected, buf);
    if pass.goOn {
      LoopLeavesIncomplete(envs, k + 1, pass.connected, pass.buf, max);
    }
  }
}
