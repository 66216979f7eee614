/** The session's read loop over its buffer, updated in place. */
module SessionClass {
  import opened Wrappers
  import opened Bytes
  import opened Frames
  import opened FrameBuffer
  import opened Headers
  import opened Commands
  import opened Session
  import SessionRuns

  /** A batch that goes on after `n` frames with these results. */
  function After(n: nat, cs: seq<PublishCommand>, p: nat, ids: seq<nat>, batch: Batch): Batch {
    match batch
    case Broken(e, js) => Broken(e, ids + js)
    case Taken(rest, m, ds, q, js) => Taken(rest, n + m, cs + ds, p + q, ids + js)
  }

  lemma {:induction false} AfterSorted(
    env: Env, n: nat, cs: seq<PublishCommand>, ids: seq<nat>, c: PublishCommand, id: nat, batch: Batch)
    ensures After(n, cs, 0, ids, Sorted(env, c, id, batch)) ==
            if Allowed(env, c.subject) then After(n + 1, cs + [c], 0, ids, batch)
            else After(n + 1, cs, 0, ids + [id], batch)
  {
    if batch.Taken? {
      assert cs + ([c] + batch.commands) == cs + [c] + batch.commands;
      assert ids + ([id] + batch.denied) == ids + [id] + batch.denied;
    } else {
      assert ids + ([id] + batch.refused) == ids + [id] + batch.refused;
    }
  }

  lemma {:induction false} AfterTallied(n: nat, p: nat, ids: seq<nat>, allowed: bool, id: nat, batch: Batch)
    ensures After(n, [], p, ids, Tallied(allowed, id, batch)) ==
            if allowed then After(n + 1, [], p + 1, ids, batch) else After(n + 1, [], p, ids + [id], batch)
  {
    if batch.Taken? {
      assert ids + ([id] + batch.denied) == ids + [id] + batch.denied;
    } else {
      assert ids + ([id] + batch.refused) == ids + [id] + batch.refused;
    }
  }

  lemma {:induction false} AfterNothing(
    n: nat, cs: seq<PublishCommand>, p: nat, ids: seq<nat>, buf: seq<byte>, batch: Batch)
    ensures After(n, cs, p, ids, Taken(buf, 0, [], 0, [])) == Taken(buf, n, cs, p, ids)
    ensures After(0, [], 0, [], batch) == batch
  {
  }

  lemma {:induction false} TakeOne(env: Env, buf: seq<byte>, limit: nat)
    ensures TakeBatch(env, buf, limit) ==
            if limit == 0 || !NextFrameIsPub(buf) then Taken(buf, 0, [], 0, [])
            else match FastPath(buf, env.max)
              case Wait => Taken(buf, 0, [], 0, [])
              case Fault(e) => Broken(e, [])
              case Publish(c, id, rest) => Sorted(env, c, id, TakeBatch(env, rest, limit - 1))
  {
    hide FastPath;
  }

  lemma {:induction false} CountAnother(env: Env, buf: seq<byte>, limit: nat)
    ensures CountBatch(env, buf, limit) ==
            if limit == 0 || !NextFrameIsPub(buf) then Taken(buf, 0, [], 0, [])
            else match CountOne(env, buf)
              case Failure(e) => Broken(e, [])
              case Success(None) => Taken(buf, 0, [], 0, [])
              case Success(Some(one)) => Tallied(one.1, one.2, CountBatch(env, buf[one.0..], limit - 1))
  {
    hide CountOne;
  }

  class ReadLoop {
    const buf: Buffer
    var connected: bool

    constructor (buf: Buffer)
      ensures this.buf == buf && !connected
    {
      this.buf := buf;
      connected := false;
    }

    /** Take the frame the layout describes off the buffer and slice the command out of it. */
    method DecodePublish(l: FrameLayout) returns (r: Result<PublishCommand, ProtocolError>)
      requires l.headerStart <= l.headerEnd <= l.total && l.payloadStart <= l.payloadEnd <= l.total <= |buf.data|
      modifies buf
      ensures buf.data == old(buf.data)[l.total..]
      ensures r == SlicePublish(old(buf.data)[l.payloadStart..l.payloadEnd], old(buf.data)[l.headerStart..l.headerEnd])
    {
      hide ParsePayload;
      hide DecodeHeaders;
      var frame := buf.SplitTo(l.total);
      var section := frame[l.headerStart..l.headerEnd];
      var payload := frame[l.payloadStart..l.payloadEnd];
      assert section == old(buf.data)[l.headerStart..l.headerEnd];
      assert payload == old(buf.data)[l.payloadStart..l.payloadEnd];
      var layout := ParsePayload(payload);
      if layout.Failure? {
        return Failure(layout.error);
      }
      var headers: Option<map<Text, Text>> := None;
      if section != [] {
        var m := DecodeHeadersFrom(section);
        if m.Failure? {
          return Failure(m.error);
        }
        headers := Some(m.value);
      }
      var p := layout.value;
      r := Success(PublishCommand(payload[2..p.subjectEnd], payload[p.dataStart..],
                                  if p.reply.Some? then Some(payload[p.reply.value.0..p.reply.value.1]) else None,
                                  headers));
    }

    /** One PUB by the fast path. */
    method NextPublish(max: nat) returns (r: Outcome)
      modifies buf
      ensures r == FastPath(old(buf.data), max)
      ensures r.Wait? ==> buf.data == old(buf.data)
      ensures r.Publish? ==> buf.data == r.rest
    {
      hide SlicePublish;
      var layout := PeekLayout(buf.data, max);
      match layout
      case Failure(e) => r := Fault(e);
      case Success(None) => r := Wait;
      case Success(Some(l)) =>
        var c := DecodePublish(l);
        r := if c.Failure? then Fault(c.error) else Publish(c.value, l.correlationId, buf.data);
    }

    /** `dispatch_publish_batch_from_read_buf`: up to 128 PUBs, an error giving up the whole batch. */
    method TakePublishBatch(env: Env) returns (r: Batch)
      modifies buf
      ensures r == TakeBatch(env, old(buf.data), PUB_BATCH_LIMIT)
      ensures r.Taken? ==> buf.data == r.rest
    {
      hide TakeBatch;
      hide FastPath;
      hide After;
      var processed := 0;
      var commands: seq<PublishCommand> := [];
      var denied: seq<nat> := [];
      AfterNothing(0, [], 0, [], [], TakeBatch(env, buf.data, PUB_BATCH_LIMIT));
      while processed < PUB_BATCH_LIMIT && NextFrameIsPub(buf.data)
        invariant processed <= PUB_BATCH_LIMIT
        invariant TakeBatch(env, old(buf.data), PUB_BATCH_LIMIT) ==
                  After(processed, commands, 0, denied, TakeBatch(env, buf.data, PUB_BATCH_LIMIT - processed))
      {
        TakeOne(env, buf.data, PUB_BATCH_LIMIT - processed);
        var one := NextPublish(env.max);
        if one.Fault? {
          BrokenAfter(processed, commands, 0, denied, one.error);
          return Broken(one.error, denied);
        }
        if one.Wait? {
          break;
        }
        AfterSorted(env, processed, commands, denied, one.command, one.correlationId,
                    TakeBatch(env, buf.data, PUB_BATCH_LIMIT - processed - 1));
        if Allowed(env, one.command.subject) {
          commands := commands + [one.command];
        } else {
          denied := denied + [one.correlationId];
        }
        processed := processed + 1;
      }
      TakeOne(env, buf.data, PUB_BATCH_LIMIT - processed);
      AfterNothing(processed, commands, 0, denied, buf.data, Broken(DecodingError(""), []));
      r := Taken(buf.data, processed, commands, 0, denied);
    }

    /** `drain_publish_batch_without_subscribers`: up to 1024 PUBs, only counted. */
    method CountPublishBatch(env: Env) returns (r: Batch)
      modifies buf
      ensures r == CountBatch(env, old(buf.data), NO_SUB_PUB_BATCH_LIMIT)
      ensures r.Taken? ==> buf.data == r.rest
    {
      hide CountBatch;
      hide CountOne;
      hide After;
      var processed := 0;
      var published := 0;
      var denied: seq<nat> := [];
      AfterNothing(0, [], 0, [], [], CountBatch(env, buf.data, NO_SUB_PUB_BATCH_LIMIT));
      while processed < NO_SUB_PUB_BATCH_LIMIT && NextFrameIsPub(buf.data)
        invariant processed <= NO_SUB_PUB_BATCH_LIMIT
        invariant CountBatch(env, old(buf.data), NO_SUB_PUB_BATCH_LIMIT) ==
                  After(processed, [], published, denied, CountBatch(env, buf.data, NO_SUB_PUB_BATCH_LIMIT - processed))
      {
        CountAnother(env, buf.data, NO_SUB_PUB_BATCH_LIMIT - processed);
        var one := CountOne(env, buf.data);
        if one.Failure? {
          BrokenAfter(processed, [], published, denied, one.error);
          return Broken(one.error, denied);
        }
        if one.value.None? {
          break;
        }
        var (total, allowed, id) := one.value.value;
        var _ := buf.SplitTo(total);
        AfterTallied(processed, published, denied, allowed, id,
                     CountBatch(env, buf.data, NO_SUB_PUB_BATCH_LIMIT - processed - 1));
        if allowed {
          published := published + 1;
        } else {
          denied := denied + [id];
        }
        processed := processed + 1;
      }
      CountAnother(env, buf.data, NO_SUB_PUB_BATCH_LIMIT - processed);
      AfterNothing(processed, [], published, denied, buf.data, Broken(DecodingError(""), []));
      r := Taken(buf.data, processed, [], published, denied);
    }

    /** One pass of the inner loop. */
    method PassOnce(env: Env) returns (goOn: bool, event: Event)
      modifies this, buf
      ensures Pass(goOn, connected, buf.data, event) == PassOver(env, old(connected), old(buf.data))
    {
      hide TakeBatch;
      hide CountBatch;
      hide Decode;
      if connected && NextFrameIsPub(buf.data) {
        var batch;
        if env.subscribers {
          batch := TakePublishBatch(env);
        } else {
          batch := CountPublishBatch(env);
        }
        match batch
        case Broken(e, refused) =>
          buf.Clear();
          return true, Failed(e, refused);
        case Taken(_, processed, commands, published, denied) =>
          return processed > 0, if processed > 0 then Batched(commands, published, denied) else Idle;
      }
      var decoded := buf.DecodeFrom(env.max);
      match decoded
      case Failure(e) =>
        buf.Clear();
        return true, Failed(e, []);
      case Success(None) =>
        return false, Idle;
      case Success(Some(f)) =>
        connected := connected || env.verdict(f) == Connect;
        return env.verdict(f) != End, Event.Decoded(f);
    }

    /** Process all complete frames: the loop ends because every pass that goes on shrinks the buffer. */
    method ProcessFrames(envs: nat -> Env, first: nat) returns (events: seq<Event>)
      modifies this, buf
      ensures Looped(connected, buf.data, events) == Loop(envs, first, old(connected), old(buf.data))
    {
      hide PassOver;
      hide Loop;
      events := [];
      var k := first;
      var goOn := true;
      ghost var whole := Loop(envs, first, connected, buf.data);
      Resume(envs, first, connected, buf.data, []);
      while goOn
        invariant goOn ==> whole == Resumed(events, Loop(envs, k, connected, buf.data))
        invariant !goOn ==> whole == Looped(connected, buf.data, events)
        decreases goOn, |buf.data|
      {
        PassShrinks(envs(k), connected, buf.data);
        Resume(envs, k, connected, buf.data, events);
        var event;
        goOn, event := PassOnce(envs(k));
        events := events + [event];
        k := k + 1;
      }
    }

    /** The outer loop: after each read, process what is complete. */
    method ServeReads(envs: nat -> Env, chunks: seq<seq<byte>>) returns (events: seq<Event>)
      requires buf.data == []
      modifies this, buf
      ensures Looped(connected, buf.data, events) == SessionRuns.Serve(envs, old(connected), chunks)
    {
      hide Loop;
      events := [];
      for i := 0 to |chunks|
        invariant Looped(connected, buf.data, events) == SessionRuns.Serve(envs, old(connected), chunks[..i])
      {
        assert chunks[..i + 1][..i] == chunks[..i];
        buf.Extend(chunks[i]);
        var more := ProcessFrames(envs, |events|);
        events := events + more;
      }
      assert chunks[..|chunks|] == chunks;
    }
  }

  lemma {:induction false} BrokenAfter(n: nat, cs: seq<PublishCommand>, p: nat, ids: seq<nat>, e: ProtocolError)
    ensures After(n, cs, p, ids, Broken(e, [])) == Broken(e, ids)
  {
  }

  function Resumed(events: seq<Event>, l: Looped): Looped {
    l.(events := events + l.events)
  }

  lemma {:induction false} Resume(envs: nat -> Env, k: nat, connected: bool, buf: seq<byte>, events: seq<Event>)
    ensures Resumed([], Loop(envs, k, connected, buf)) == Loop(envs, k, connected, buf)
    ensures var pass := PassOver(envs(k), connected, buf);
            Resumed(events, Loop(envs, k, connected, buf)) ==
            if pass.goOn then Resumed(events + [pass.event], Loop(envs, k + 1, pass.connected, pass.buf))
            else Looped(pass.connected, pass.buf, events + [pass.event])
  {
    hide PassOver;
    PassShrinks(envs(k), connected, buf);
    var pass := PassOver(envs(k), connected, buf);
    if pass.goOn {
      var l := Loop(envs, k + 1, pass.connected, pass.buf);
      assert events + ([pass.event] + l.events) == events + [pass.event] + l.events;
    }
  }
}
