/**
 What a session does with a whole stream: however the bytes arrive and wherever the batch limits cut, every
 frame is handled once and in order, under the conditions of the pass that takes it.
 */
module SessionRuns {
  import opened Bytes
  import opened Seqs
  import opened Frames
  import opened Commands
  import opened Session

  // ---- frames one at a time ----

  /** What was done: commands published, PUBs only counted, ids refused, frames decoded by the codec. */
  datatype Tally = Tally(published: seq<PublishCommand>, counted: nat, refused: seq<nat>, decoded: seq<Frame>)

  const NOTHING: Tally := Tally([], 0, [], [])

  function Plus(a: Tally, b: Tally): Tally {
    Tally(a.published + b.published, a.counted + b.counted, a.refused + b.refused, a.decoded + b.decoded)
  }

  /** A PUB holds a command, with a whole reply field. */
  predicate Clean(f: Frame) {
    f.header.frameType == PUB ==> ReplyComplete(f.payload) && PublishOf(f.payload, f.headers).Success?
  }

  /** One frame: a PUB of a connected session is published, counted or refused; any other frame is decoded. */
  function Handle(env: Env, connected: bool, f: Frame): Tally
    requires Clean(f)
  {
    if connected && f.header.frameType == PUB then
      var c := PublishOf(f.payload, f.headers).value;
      if !Allowed(env, c.subject) then NOTHING.(refused := [f.header.correlationId])
      else if env.subscribers then NOTHING.(published := [c])
      else NOTHING.(counted := 1)
    else NOTHING.(decoded := [f])
  }

  function StateAfter(env: Env, connected: bool, f: Frame): bool {
    connected || env.verdict(f) == Connect
  }

  predicate AllClean(fs: seq<Frame>) {
    forall i :: 0 <= i < |fs| ==> Clean(fs[i])
  }

  /** The frames one by one, frame `i` under the conditions of pass `at[i]`. */
  function OneByOne(envs: nat -> Env, at: seq<nat>, connected: bool, fs: seq<Frame>): (Tally, bool)
    requires |at| == |fs| && AllClean(fs)
  {
    if fs == [] then (NOTHING, connected)
    else
      var n := |fs| - 1;
      var (before, state) := OneByOne(envs, at[..n], connected, fs[..n]);
      (Plus(before, Handle(envs(at[n]), state, fs[n])), StateAfter(envs(at[n]), state, fs[n]))
  }

  lemma {:induction false} PlusAssoc(a: Tally, b: Tally, c: Tally)
    ensures Plus(Plus(a, b), c) == Plus(a, Plus(b, c))
  {
    ConcatAssoc(a.published, b.published, c.published);
    ConcatAssoc(a.refused, b.refused, c.refused);
    ConcatAssoc(a.decoded, b.decoded, c.decoded);
  }

  lemma {:induction false} PlusNothing(a: Tally)
    ensures Plus(a, NOTHING) == a && Plus(NOTHING, a) == a
  {
  }

  lemma {:induction false} CleanConcat(fs: seq<Frame>, gs: seq<Frame>)
    ensures AllClean(fs + gs) <==> AllClean(fs) && AllClean(gs)
  {
    if AllClean(fs + gs) {
      assert forall i :: 0 <= i < |fs| ==> (fs + gs)[i] == fs[i];
      assert forall i :: 0 <= i < |gs| ==> (fs + gs)[|fs| + i] == gs[i];
    }
  }

  lemma {:induction false} OneByOneConcat(
    envs: nat -> Env, at: seq<nat>, bt: seq<nat>, connected: bool, fs: seq<Frame>, gs: seq<Frame>)
    requires |at| == |fs| && |bt| == |gs| && AllClean(fs) && AllClean(gs)
    ensures AllClean(fs + gs)
    ensures var (first, state) := OneByOne(envs, at, connected, fs);
            var (second, end) := OneByOne(envs, bt, state, gs);
            OneByOne(envs, at + bt, connected, fs + gs) == (Plus(first, second), end)
  {
    hide Clean;
    hide Handle;
    hide Plus;
    CleanConcat(fs, gs);
    var (first, state) := OneByOne(envs, at, connected, fs);
    if gs == [] {
      assert fs + gs == fs && at + bt == at;
      PlusNothing(first);
    } else {
      var n := |gs| - 1;
      OneByOneConcat(envs, at, bt[..n], connected, fs, gs[..n]);
      assert (fs + gs)[..|fs| + n] == fs + gs[..n] && (at + bt)[..|fs| + n] == at + bt[..n];
      var (second, mid) := OneByOne(envs, bt[..n], state, gs[..n]);
      PlusAssoc(first, second, Handle(envs(bt[n]), mid, gs[n]));
    }
  }

  function Same(k: nat, n: nat): (r: seq<nat>)
    ensures |r| == n
  {
    seq(n, _ => k)
  }

  // ---- what the loop's events add up to ----

  function TallyOf(e: Event): Tally {
    match e
    case Batched(cs, p, ids) => Tally(cs, p, ids, [])
    case Decoded(f) => NOTHING.(decoded := [f])
    case Failed(_, ids) => NOTHING.(refused := ids)
    case Idle => NOTHING
  }

  function Total(events: seq<Event>): Tally {
    if events == [] then NOTHING else Plus(TallyOf(events[0]), Total(events[1..]))
  }

  lemma {:induction false} TotalConcat(a: seq<Event>, b: seq<Event>)
    ensures Total(a + b) == Plus(Total(a), Total(b))
  {
    hide Plus;
    hide TallyOf;
    if a == [] {
      assert a + b == b;
      PlusNothing(Total(b));
    } else {
      TotalConcat(a[1..], b);
      assert (a + b)[1..] == a[1..] + b;
      PlusAssoc(TallyOf(a[0]), Total(a[1..]), Total(b));
    }
  }

  // ---- one PUB ----

  /** The stream `buf` holds the frames `fs`, all of them clean, and then an incomplete rest. */
  ghost predicate Holds(buf: seq<byte>, max: nat, fs: seq<Frame>, rest: seq<byte>) {
    Drain(buf, max) == Drained(fs, rest, false) && AllClean(fs)
  }

  lemma {:induction false} HoldsNext(buf: seq<byte>, max: nat, fs: seq<Frame>, rest: seq<byte>)
    requires Holds(buf, max, fs, rest)
    ensures fs == [] ==> Decode(buf, max) == Incomplete && rest == buf
    ensures fs != [] ==> Decode(buf, max).Got? && Decode(buf, max).frame == fs[0] && Clean(fs[0])
                         && Holds(Decode(buf, max).rest, max, fs[1..], rest)
  {
    hide Decode;
    hide Clean;
  }

  /** The frame the codec finds has the type the fast path peeks at. */
  lemma {:induction false} PeekedType(buf: seq<byte>, max: nat)
    requires Decode(buf, max).Got?
    ensures NextFrameIsPub(buf) <==> Decode(buf, max).frame.header.frameType == PUB
  {
  }

  lemma {:induction false} FastOnClean(buf: seq<byte>, max: nat)
    requires Decode(buf, max).Got? && NextFrameIsPub(buf) && Clean(Decode(buf, max).frame)
    ensures var f := Decode(buf, max).frame;
            && f.header.frameType == PUB
            && FastPath(buf, max)
               == Publish(PublishOf(f.payload, f.headers).value, f.header.correlationId, Decode(buf, max).rest)
  {
    hide Decode;
    hide FastPath;
    hide PublishOf;
    hide ReplyComplete;
    PeekedType(buf, max);
    PathsCompared(buf, max);
  }

  lemma {:induction false} SubjectOfSlice(payload: seq<byte>, section: seq<byte>)
    requires ReplyComplete(payload) && PublishOf(payload, section).Success?
    ensures ParsePayload(payload).Success?
    ensures PublishOf(payload, section).value.subject == payload[2..ParsePayload(payload).value.subjectEnd]
  {
    hide SectionHeaders;
    ParsesIffComplete(payload);
    SlicesAgree(payload, section);
  }

  lemma {:induction false} CountOnClean(env: Env, buf: seq<byte>)
    requires Decode(buf, env.max).Got? && NextFrameIsPub(buf) && Clean(Decode(buf, env.max).frame)
    ensures CountOne(env, buf).Success? && CountOne(env, buf).value.Some?
    ensures var f := Decode(buf, env.max).frame;
            var one := CountOne(env, buf).value.value;
            && f.header.frameType == PUB
            && buf[one.0..] == Decode(buf, env.max).rest
            && one.1 == Allowed(env, PublishOf(f.payload, f.headers).value.subject)
            && (!one.1 ==> one.2 == f.header.correlationId)
  {
    hide Decode;
    hide PeekLayout;
    hide PeekTotal;
    hide PublishOf;
    hide ParsePayload;
    hide ReplyComplete;
    PeekedType(buf, env.max);
    PeekIsDecode(buf, env.max);
    TotalsAgree(buf, env.max);
    var f := Decode(buf, env.max).frame;
    SubjectOfSlice(f.payload, f.headers);
  }

  // ---- a batch ----

  /** What a batch did, if it broke nothing. */
  function BatchTally(batch: Batch): Tally
    requires batch.Taken?
  {
    Tally(batch.commands, batch.published, batch.denied, [])
  }

  /** How many PUB frames stand at the front. */
  function Leading(fs: seq<Frame>): nat {
    if fs == [] || fs[0].header.frameType != PUB then 0 else 1 + Leading(fs[1..])
  }

  function Least(a: nat, b: nat): nat {
    if a < b then a else b
  }

  /** The batch took the first `n` frames: the PUBs at the front, up to the limit. */
  ghost predicate Took(
    envs: nat -> Env, k: nat, buf: seq<byte>, fs: seq<Frame>, rest: seq<byte>, limit: nat, batch: Batch, n: nat)
  {
    && n <= |fs| && AllClean(fs[..n])
    && batch.Taken? && batch.processed == n
    && Holds(batch.rest, envs(k).max, fs[n..], rest)
    && (BatchTally(batch), true) == OneByOne(envs, Same(k, n), true, fs[..n])
    && (n == 0 ==> batch.rest == buf)
    && n == Least(limit, Leading(fs))
  }

  lemma {:induction false} TookNone(
    envs: nat -> Env, k: nat, buf: seq<byte>, fs: seq<Frame>, rest: seq<byte>, limit: nat)
    requires Holds(buf, envs(k).max, fs, rest)
    requires limit == 0 || Leading(fs) == 0
    ensures Took(envs, k, buf, fs, rest, limit, Taken(buf, 0, [], 0, []), 0)
  {
    hide Drain;
    hide Clean;
    assert fs[0..] == fs;
  }

  lemma {:induction false} OneMore(envs: nat -> Env, k: nat, fs: seq<Frame>, n: nat)
    requires n < |fs| && Clean(fs[0]) && AllClean(fs[1..][..n]) && fs[0].header.frameType == PUB
    ensures AllClean(fs[..n + 1]) && fs[1..][n..] == fs[n + 1..]
    ensures var (others, end) := OneByOne(envs, Same(k, n), true, fs[1..][..n]);
            OneByOne(envs, Same(k, n + 1), true, fs[..n + 1]) == (Plus(Handle(envs(k), true, fs[0]), others), end)
  {
    hide Clean;
    hide Handle;
    assert fs[..n + 1] == [fs[0]] + fs[1..][..n] && Same(k, n + 1) == [k] + Same(k, n);
    OneByOneConcat(envs, [k], Same(k, n), true, [fs[0]], fs[1..][..n]);
    FirstOnly(envs, k, true, fs[0]);
  }

  lemma {:induction false} FirstOnly(envs: nat -> Env, k: nat, connected: bool, f: Frame)
    requires Clean(f)
    ensures AllClean([f])
    ensures OneByOne(envs, [k], connected, [f]) == (Handle(envs(k), connected, f), StateAfter(envs(k), connected, f))
  {
    hide Clean;
    hide Handle;
    assert [f][..0] == [] && [k][..0] == [];
    PlusNothing(Handle(envs(k), connected, f));
  }

  lemma {:induction false} SortedTally(env: Env, f: Frame, batch: Batch)
    requires Clean(f) && f.header.frameType == PUB && env.subscribers && batch.Taken?
    ensures var more := Sorted(env, PublishOf(f.payload, f.headers).value, f.header.correlationId, batch);
            && more.Taken? && more.rest == batch.rest && more.processed == batch.processed + 1
            && BatchTally(more) == Plus(Handle(env, true, f), BatchTally(batch))
  {
    hide PublishOf;
  }

  lemma {:induction false} TalliedTally(env: Env, f: Frame, id: nat, batch: Batch)
    requires Clean(f) && f.header.frameType == PUB && !env.subscribers && batch.Taken?
    requires var c := PublishOf(f.payload, f.headers).value;
             !Allowed(env, c.subject) ==> id == f.header.correlationId
    ensures var more := Tallied(Allowed(env, PublishOf(f.payload, f.headers).value.subject), id, batch);
            && more.Taken? && more.rest == batch.rest && more.processed == batch.processed + 1
            && BatchTally(more) == Plus(Handle(env, true, f), BatchTally(batch))
  {
    hide PublishOf;
  }

  lemma {:induction false} TookOneMore(
    envs: nat -> Env, k: nat, buf: seq<byte>, fs: seq<Frame>, rest: seq<byte>, limit: nat, left: seq<byte>,
    batch: Batch, more: Batch, n: nat)
    requires fs != [] && Clean(fs[0]) && fs[0].header.frameType == PUB && limit > 0
    requires Took(envs, k, left, fs[1..], rest, limit - 1, batch, n)
    requires more.Taken? && more.rest == batch.rest && more.processed == batch.processed + 1
    requires BatchTally(more) == Plus(Handle(envs(k), true, fs[0]), BatchTally(batch))
    ensures Took(envs, k, buf, fs, rest, limit, more, n + 1)
  {
    hide Drain;
    hide Clean;
    hide Handle;
    hide OneByOne;
    OneMore(envs, k, fs, n);
  }

  lemma {:induction false} TakeHandles(
    envs: nat -> Env, k: nat, buf: seq<byte>, fs: seq<Frame>, rest: seq<byte>, limit: nat) returns (n: nat)
    requires Holds(buf, envs(k).max, fs, rest) && envs(k).subscribers
    ensures Took(envs, k, buf, fs, rest, limit, TakeBatch(envs(k), buf, limit), n)
    decreases limit
  {
    hide Decode;
    hide FastPath;
    hide Clean;
    hide Handle;
    hide OneByOne;
    hide Holds;
    var env := envs(k);
    HoldsNext(buf, env.max, fs, rest);
    if limit == 0 || !NextFrameIsPub(buf) || fs == [] {
      n := 0;
      if limit > 0 && fs != [] {
        PeekedType(buf, env.max);
      }
      TookNone(envs, k, buf, fs, rest, limit);
      NothingToTake(env, buf, limit);
    } else {
      FastOnClean(buf, env.max);
      var left := Decode(buf, env.max).rest;
      n := TakeHandles(envs, k, left, fs[1..], rest, limit - 1);
      SortedTally(env, fs[0], TakeBatch(env, left, limit - 1));
      TookOneMore(envs, k, buf, fs, rest, limit, left, TakeBatch(env, left, limit - 1), TakeBatch(env, buf, limit), n);
      n := n + 1;
    }
  }

  /** A batch over nothing complete takes nothing. */
  lemma {:induction false} NothingToTake(env: Env, buf: seq<byte>, limit: nat)
    requires limit == 0 || !NextFrameIsPub(buf) || Decode(buf, env.max) == Incomplete
    ensures TakeBatch(env, buf, limit) == Taken(buf, 0, [], 0, [])
    ensures CountBatch(env, buf, limit) == Taken(buf, 0, [], 0, [])
  {
    hide Decode;
    hide FastPath;
    hide PeekLayout;
    hide PeekTotal;
    if NextFrameIsPub(buf) {
      PathsCompared(buf, env.max);
      OnlyGotPublishes(buf, env.max);
      PeekIsDecode(buf, env.max);
      TotalsAgree(buf, env.max);
    }
  }

  lemma {:induction false} CountHandles(
    envs: nat -> Env, k: nat, buf: seq<byte>, fs: seq<Frame>, rest: seq<byte>, limit: nat) returns (n: nat)
    requires Holds(buf, envs(k).max, fs, rest) && !envs(k).subscribers
    ensures Took(envs, k, buf, fs, rest, limit, CountBatch(envs(k), buf, limit), n)
    decreases limit
  {
    hide Decode;
    hide CountOne;
    hide Clean;
    hide Handle;
    hide OneByOne;
    hide Holds;
    var env := envs(k);
    HoldsNext(buf, env.max, fs, rest);
    if limit == 0 || !NextFrameIsPub(buf) || fs == [] {
      n := 0;
      if limit > 0 && fs != [] {
        PeekedType(buf, env.max);
      }
      TookNone(envs, k, buf, fs, rest, limit);
      NothingToTake(env, buf, limit);
    } else {
      CountOnClean(env, buf);
      var left := Decode(buf, env.max).rest;
      n := CountHandles(envs, k, left, fs[1..], rest, limit - 1);
      TalliedTally(env, fs[0], CountOne(env, buf).value.value.2, CountBatch(env, left, limit - 1));
      var batch := CountBatch(env, left, limit - 1);
      TookOneMore(envs, k, buf, fs, rest, limit, left, batch, CountBatch(env, buf, limit), n);
      n := n + 1;
    }
  }

  // ---- a pass and the loop ----

  /** The passes `at` handled the first frames of the stream, one by one, and `events` is what they did. */
  ghost predicate Handled(
    envs: nat -> Env, connected: bool, fs: seq<Frame>, at: seq<nat>, events: seq<Event>, state: bool)
  {
    && |at| <= |fs| && AllClean(fs[..|at|])
    && OneByOne(envs, at, connected, fs[..|at|]) == (Total(events), state)
  }

  /** Passes come in order, from `k` on and below `end`. */
  ghost predicate InPasses(at: seq<nat>, k: nat, end: nat) {
    && (forall i :: 0 <= i < |at| ==> k <= at[i] < end)
    && (forall i, j :: 0 <= i < j < |at| ==> at[i] <= at[j])
  }

  lemma {:induction false} PassHandles(
    envs: nat -> Env, k: nat, connected: bool, buf: seq<byte>, fs: seq<Frame>, rest: seq<byte>) returns (n: nat)
    requires Holds(buf, envs(k).max, fs, rest)
    ensures n <= |fs| && AllClean(fs[..n])
    ensures var pass := PassOver(envs(k), connected, buf);
            && OneByOne(envs, Same(k, n), connected, fs[..n]) == (TallyOf(pass.event), pass.connected)
            && Holds(pass.buf, envs(k).max, fs[n..], rest)
  {
    hide TakeBatch;
    hide CountBatch;
    hide Decode;
    hide Clean;
    hide OneByOne;
    hide Holds;
    var env := envs(k);
    if connected && NextFrameIsPub(buf) {
      if env.subscribers {
        n := TakeHandles(envs, k, buf, fs, rest, PUB_BATCH_LIMIT);
      } else {
        n := CountHandles(envs, k, buf, fs, rest, NO_SUB_PUB_BATCH_LIMIT);
      }
      NothingDone(envs, k, connected, fs);
    } else {
      HoldsNext(buf, env.max, fs, rest);
      if fs == [] {
        n := 0;
        NothingDone(envs, k, connected, fs);
      } else {
        n := 1;
        PeekedType(buf, env.max);
        FirstOnly(envs, k, connected, fs[0]);
        assert Same(k, 1) == [k] && fs[..1] == [fs[0]];
      }
    }
  }

  lemma {:induction false} NothingDone(envs: nat -> Env, k: nat, connected: bool, fs: seq<Frame>)
    ensures AllClean(fs[..0]) && fs[0..] == fs
    ensures OneByOne(envs, Same(k, 0), connected, fs[..0]) == (NOTHING, connected)
  {
  }

  lemma {:induction false} HandledConcat(
    envs: nat -> Env, connected: bool, fs: seq<Frame>, at: seq<nat>, events: seq<Event>, mid: bool,
    bt: seq<nat>, more: seq<Event>, state: bool)
    requires Handled(envs, connected, fs, at, events, mid)
    requires Handled(envs, mid, fs[|at|..], bt, more, state)
    ensures Handled(envs, connected, fs, at + bt, events + more, state)
    ensures fs[|at|..][|bt|..] == fs[|at + bt|..]
  {
    hide OneByOne;
    hide Clean;
    hide Total;
    OneByOneConcat(envs, at, bt, connected, fs[..|at|], fs[|at|..][..|bt|]);
    assert fs[..|at|] + fs[|at|..][..|bt|] == fs[..|at + bt|];
    TotalConcat(events, more);
  }

  lemma {:induction false} PassesConcat(at: seq<nat>, bt: seq<nat>, k: nat, mid: nat, end: nat)
    requires InPasses(at, k, mid) && InPasses(bt, mid, end) && k <= mid <= end
    ensures InPasses(at + bt, k, end)
  {
  }

  /** One run of the inner loop, from pass `k`, handles frames from the front of the buffer. */
  lemma {:induction false} LoopHandles(
    envs: nat -> Env, k: nat, connected: bool, buf: seq<byte>, max: nat, fs: seq<Frame>, rest: seq<byte>)
    returns (at: seq<nat>)
    requires (forall j :: envs(j).max == max) && Holds(buf, max, fs, rest)
    ensures var l := Loop(envs, k, connected, buf);
            && Handled(envs, connected, fs, at, l.events, l.connected)
            && InPasses(at, k, k + |l.events|)
            && Holds(l.buf, max, fs[|at|..], rest)
    decreases |buf|
  {
    hide PassOver;
    hide Handled;
    hide InPasses;
    hide OneByOne;
    hide AllClean;
    hide Holds;
    PassShrinks(envs(k), connected, buf);
    var n := PassHandles(envs, k, connected, buf, fs, rest);
    var pass := PassOver(envs(k), connected, buf);
    PassHandled(envs, k, connected, fs, n, pass.event, pass.connected);
    if pass.goOn {
      var l := Loop(envs, k + 1, pass.connected, pass.buf);
      var more := LoopHandles(envs, k + 1, pass.connected, pass.buf, max, fs[n..], rest);
      at := Same(k, n) + more;
      HandledConcat(envs, connected, fs, Same(k, n), [pass.event], pass.connected, more, l.events, l.connected);
      PassesConcat(Same(k, n), more, k, k + 1, k + 1 + |l.events|);
    } else {
      at := Same(k, n);
    }
  }

  lemma {:induction false} PassHandled(
    envs: nat -> Env, k: nat, connected: bool, fs: seq<Frame>, n: nat, event: Event, state: bool)
    requires n <= |fs| && AllClean(fs[..n])
    requires OneByOne(envs, Same(k, n), connected, fs[..n]) == (TallyOf(event), state)
    ensures Handled(envs, connected, fs, Same(k, n), [event], state)
    ensures InPasses(Same(k, n), k, k + 1)
  {
    hide OneByOne;
    hide Clean;
    hide Total;
    hide TallyOf;
    TotalOne(event);
  }

  lemma {:induction false} TotalOne(event: Event)
    ensures Total([event]) == TallyOf(event)
  {
    assert [event][1..] == [];
    assert Total([event][1..]) == NOTHING;
    PlusNothing(TallyOf(event));
  }

  // ---- the session ----

  /** Bytes arrive in chunks, an empty one for a wake-up without bytes; after each the inner loop is entered. */
  function Serve(envs: nat -> Env, connected: bool, chunks: seq<seq<byte>>): Looped {
    if chunks == [] then Looped(connected, [], [])
    else
      var before := Serve(envs, connected, chunks[..|chunks| - 1]);
      var l := Loop(envs, |before.events|, before.connected, before.buf + chunks[|chunks| - 1]);
      l.(events := before.events + l.events)
  }

  lemma {:induction false} HoldsMore(
    stream: seq<byte>, buf: seq<byte>, chunk: seq<byte>, max: nat, done: seq<Frame>, fs: seq<Frame>, rest: seq<byte>)
    requires Drain(stream, max) == Drained(done + fs, rest, false) && Holds(buf, max, fs, rest)
    requires !Drain(stream + chunk, max).refused && AllClean(Drain(stream + chunk, max).frames)
    ensures var whole := Drain(stream + chunk, max);
            |done| <= |whole.frames| && whole.frames[..|done|] == done
            && Holds(buf + chunk, max, whole.frames[|done|..], whole.rest)
  {
    hide Drain;
    hide Clean;
    DrainConcat(stream, chunk, max);
    DrainConcat(buf, chunk, max);
    var next := Drain(rest + chunk, max);
    var whole := Drain(stream + chunk, max);
    assert whole.frames == done + (fs + next.frames) by {
      ConcatAssoc(done, fs, next.frames);
    }
    assert whole.frames[|done|..] == fs + next.frames;
    CleanConcat(done, fs + next.frames);
  }

  lemma {:induction false} PrefixAccepted(chunks: seq<seq<byte>>, max: nat)
    requires chunks != [] && !Drain(Flatten(chunks), max).refused && AllClean(Drain(Flatten(chunks), max).frames)
    ensures var before := Flatten(chunks[..|chunks| - 1]);
            !Drain(before, max).refused && AllClean(Drain(before, max).frames)
  {
    hide Drain;
    hide Clean;
    var before, last := Flatten(chunks[..|chunks| - 1]), chunks[|chunks| - 1];
    if Drain(before, max).refused {
      RefusalStands(before, last, max);
    }
    DrainConcat(before, last, max);
    CleanConcat(Drain(before, max).frames, Drain(Drain(before, max).rest + last, max).frames);
  }

  /** Every run of the inner loop takes up where the one before it stopped. */
  lemma {:induction false} ServeHandles(envs: nat -> Env, connected: bool, chunks: seq<seq<byte>>, max: nat)
    returns (at: seq<nat>)
    requires forall j :: envs(j).max == max
    requires !Drain(Flatten(chunks), max).refused && AllClean(Drain(Flatten(chunks), max).frames)
    ensures var all := Drain(Flatten(chunks), max);
            var l := Serve(envs, connected, chunks);
            && Handled(envs, connected, all.frames, at, l.events, l.connected)
            && InPasses(at, 0, |l.events|)
            && Holds(l.buf, max, all.frames[|at|..], all.rest)
  {
    hide Drain;
    hide Loop;
    hide Clean;
    hide Handled;
    hide InPasses;
    hide Holds;
    if chunks == [] {
      at := [];
      NothingServed(envs, connected, max);
    } else {
      var n := |chunks| - 1;
      PrefixAccepted(chunks, max);
      var done := ServeHandles(envs, connected, chunks[..n], max);
      var first, before := Drain(Flatten(chunks[..n]), max), Serve(envs, connected, chunks[..n]);
      var all := Drain(Flatten(chunks), max);
      var l := Loop(envs, |before.events|, before.connected, before.buf + chunks[n]);
      DoneFits(envs, connected, first.frames, done, before.events, before.connected);
      HoldsMore(Flatten(chunks[..n]), before.buf, chunks[n], max, first.frames[..|done|], first.frames[|done|..],
                first.rest);
      HandledLonger(envs, connected, first.frames, all.frames, done, before.events, before.connected);
      var next := LoopHandles(envs, |before.events|, before.connected, before.buf + chunks[n], max,
                              all.frames[|done|..], all.rest);
      HandledConcat(envs, connected, all.frames, done, before.events, before.connected, next, l.events, l.connected);
      PassesConcat(done, next, 0, |before.events|, |before.events| + |l.events|);
      at := done + next;
    }
  }

  lemma {:induction false} DoneFits(
    envs: nat -> Env, connected: bool, fs: seq<Frame>, at: seq<nat>, events: seq<Event>, state: bool)
    requires Handled(envs, connected, fs, at, events, state)
    ensures |at| <= |fs| && fs[..|at|] + fs[|at|..] == fs
  {
  }

  lemma {:induction false} HandledLonger(
    envs: nat -> Env, connected: bool, fs: seq<Frame>, more: seq<Frame>, at: seq<nat>, events: seq<Event>, state: bool)
    requires Handled(envs, connected, fs, at, events, state)
    requires |at| <= |more| && more[..|at|] == fs[..|at|]
    ensures Handled(envs, connected, more, at, events, state)
  {
    hide OneByOne;
    hide Clean;
    hide Total;
  }

  lemma {:induction false} NothingServed(envs: nat -> Env, connected: bool, max: nat)
    ensures Flatten([]) == [] && Serve(envs, connected, []) == Looped(connected, [], [])
    ensures var all := Drain([], max);
            && Handled(envs, connected, all.frames, [], [], connected)
            && InPasses([], 0, 0)
            && Holds([], max, all.frames[0..], all.rest)
  {
    EmptyDrains(max);
    assert Drain([], max).frames[..0] == [];
  }

  /** The last pass refused a CONNECT. */
  ghost predicate RefusedConnect(envs: nat -> Env, events: seq<Event>) {
    && events != [] && events[|events| - 1].Decoded?
    && envs(|events| - 1).verdict(events[|events| - 1].frame) == End
  }

  lemma {:induction false} NothingLeft(envs: nat -> Env, connected: bool, chunks: seq<seq<byte>>, max: nat)
    requires forall j :: envs(j).max == max
    ensures var l := Serve(envs, connected, chunks);
            !RefusedConnect(envs, l.events) ==> Decode(l.buf, max) == Incomplete
  {
    hide Loop;
    hide Decode;
    if chunks == [] {
      EmptyDecodes(max);
    } else {
      var n := |chunks| - 1;
      var before := Serve(envs, connected, chunks[..n]);
      LoopLeavesIncomplete(envs, |before.events|, before.connected, before.buf + chunks[n], max);
      var l := Loop(envs, |before.events|, before.connected, before.buf + chunks[n]);
      assert (before.events + l.events)[|before.events| + |l.events| - 1] == l.events[|l.events| - 1];
    }
  }

  lemma {:induction false} EmptyDecodes(max: nat)
    ensures Decode([], max) == Incomplete
  {
  }

  /**
   A session handles the frames of any stream the codec accepts, however it is cut into reads, once each and
   in order: `at[i]` is the pass that took frame `i`, and what the session published, counted, refused and
   decoded is what handling the frames one by one under those passes' conditions gives. What was not handled
   is still in the buffer, and that is nothing but an incomplete frame unless the last pass refused a CONNECT.
   */
  lemma {:induction false} SessionPublishesInOrder(
    envs: nat -> Env, connected: bool, chunks: seq<seq<byte>>, max: nat) returns (at: seq<nat>)
    requires forall j :: envs(j).max == max
    requires !Drain(Flatten(chunks), max).refused && AllClean(Drain(Flatten(chunks), max).frames)
    ensures var all := Drain(Flatten(chunks), max);
            var l := Serve(envs, connected, chunks);
            && |at| <= |all.frames| && AllClean(all.frames[..|at|])
            && InPasses(at, 0, |l.events|)
            && OneByOne(envs, at, connected, all.frames[..|at|]) == (Total(l.events), l.connected)
            && Drain(l.buf, max) == Drained(all.frames[|at|..], all.rest, false)
            && (!RefusedConnect(envs, l.events) ==> |at| == |all.frames| && l.buf == all.rest)
  {
    hide Drain;
    hide Clean;
    hide OneByOne;
    hide Serve;
    hide Total;
    at := ServeHandles(envs, connected, chunks, max);
    NothingLeft(envs, connected, chunks, max);
    var l := Serve(envs, connected, chunks);
    IncompleteDrains(l.buf, max);
  }

  lemma {:induction false} IncompleteDrains(buf: seq<byte>, max: nat)
    ensures Decode(buf, max) == Incomplete ==> Drain(buf, max) == Drained([], buf, false)
  {
  }

  // ---- how much a pass takes, and what a malformed PUB costs ----

  /** The limits of a batch: with subscribers and without. */
  function Limit(env: Env): nat {
    if env.subscribers then 128 else 1024
  }

  /** A pass of a connected session takes the PUBs at the front, up to 128 of them or 1024 when nobody listens. */
  lemma {:induction false} PassTakesUpTo(env: Env, buf: seq<byte>, fs: seq<Frame>, rest: seq<byte>)
    requires Holds(buf, env.max, fs, rest) && Leading(fs) > 0
    ensures PassOver(env, true, buf).goOn && PassOver(env, true, buf).event.Batched?
    ensures Least(Limit(env), Leading(fs)) <= |fs|
    ensures Holds(PassOver(env, true, buf).buf, env.max, fs[Least(Limit(env), Leading(fs))..], rest)
  {
    hide TakeBatch;
    hide CountBatch;
    hide Decode;
    hide Clean;
    hide OneByOne;
    hide Holds;
    var envs: nat -> Env := _ => env;
    HoldsNext(buf, env.max, fs, rest);
    PeekedType(buf, env.max);
    if env.subscribers {
      var n := TakeHandles(envs, 0, buf, fs, rest, PUB_BATCH_LIMIT);
    } else {
      var n := CountHandles(envs, 0, buf, fs, rest, NO_SUB_PUB_BATCH_LIMIT);
    }
  }

  /** Well-formed PUBs. */
  ghost predicate AllPubs(fs: seq<Frame>, max: nat) {
    forall i :: 0 <= i < |fs| ==> WellFormed(fs[i], max) && fs[i].header.frameType == PUB
  }

  /** The buffer begins with a PUB that the path in use cannot take. */
  predicate Malformed(env: Env, buf: seq<byte>) {
    NextFrameIsPub(buf) && if env.subscribers then FastPath(buf, env.max).Fault? else CountOne(env, buf).Failure?
  }

  lemma {:induction false} NextIsClean(f: Frame, rest: seq<byte>, max: nat)
    requires WellFormed(f, max) && Clean(f) && f.header.frameType == PUB
    ensures var buf := Encode(f) + rest;
            Decode(buf, max) == Got(f, rest) && NextFrameIsPub(buf)
  {
    hide Encode;
    hide Decode;
    hide Clean;
    hide WellFormed;
    DecodeEncode(f, rest, max);
    PeekedType(Encode(f) + rest, max);
  }

  /** The id of a PUB that is refused. */
  function RefusedId(env: Env, f: Frame): seq<nat>
    requires Clean(f)
  {
    Handle(env, true, f).refused
  }

  function RefusedIds(env: Env, fs: seq<Frame>): seq<nat>
    requires AllClean(fs)
  {
    if fs == [] then [] else RefusedId(env, fs[0]) + RefusedIds(env, fs[1..])
  }

  /** A clean PUB in front breaks nothing and mends nothing; if it is refused, it is refused in either case. */
  ghost predicate CarriesOn(env: Env, f: Frame, batch: Batch, after: Batch)
    requires Clean(f)
  {
    if after.Broken? then batch == Broken(after.error, RefusedId(env, f) + after.refused) else batch.Taken?
  }

  lemma {:induction false} CleanThenSame(env: Env, f: Frame, rest: seq<byte>, limit: nat)
    requires WellFormed(f, env.max) && Clean(f) && f.header.frameType == PUB && limit > 0
    ensures env.subscribers ==>
              CarriesOn(env, f, TakeBatch(env, Encode(f) + rest, limit), TakeBatch(env, rest, limit - 1))
    ensures !env.subscribers ==>
              CarriesOn(env, f, CountBatch(env, Encode(f) + rest, limit), CountBatch(env, rest, limit - 1))
  {
    hide Encode;
    hide Decode;
    hide FastPath;
    hide CountOne;
    hide PublishOf;
    hide WellFormed;
    var buf := Encode(f) + rest;
    NextIsClean(f, rest, env.max);
    FastOnClean(buf, env.max);
    CountOnClean(env, buf);
  }

  /** The batch breaks off after these ids were refused. */
  ghost predicate BreaksOff(batch: Batch, ids: seq<nat>) {
    batch.Broken? && batch.refused == ids
  }

  lemma {:induction false} BrokenAtOnce(env: Env, buf: seq<byte>, limit: nat)
    requires limit == 0 || Malformed(env, buf)
    ensures env.subscribers ==>
              if limit > 0 then BreaksOff(TakeBatch(env, buf, limit), []) else TakeBatch(env, buf, limit).Taken?
    ensures !env.subscribers ==>
              if limit > 0 then BreaksOff(CountBatch(env, buf, limit), []) else CountBatch(env, buf, limit).Taken?
  {
    hide FastPath;
    hide CountOne;
  }

  lemma {:induction false} BrokenIff(env: Env, fs: seq<Frame>, bad: seq<byte>, limit: nat)
    requires AllPubs(fs, env.max) && AllClean(fs) && Malformed(env, bad)
    ensures env.subscribers ==>
              var batch := TakeBatch(env, EncodeAll(fs) + bad, limit);
              if |fs| < limit then BreaksOff(batch, RefusedIds(env, fs)) else batch.Taken?
    ensures !env.subscribers ==>
              var batch := CountBatch(env, EncodeAll(fs) + bad, limit);
              if |fs| < limit then BreaksOff(batch, RefusedIds(env, fs)) else batch.Taken?
    decreases limit
  {
    hide Encode;
    hide Malformed;
    hide TakeBatch;
    hide CountBatch;
    hide Clean;
    hide WellFormed;
    hide RefusedId;
    if fs == [] {
      assert EncodeAll(fs) + bad == bad;
      BrokenAtOnce(env, bad, limit);
    } else if limit > 0 {
      var rest := EncodeAll(fs[1..]) + bad;
      assert EncodeAll(fs) + bad == Encode(fs[0]) + rest;
      CleanThenSame(env, fs[0], rest, limit);
      BrokenIff(env, fs[1..], bad, limit - 1);
    } else {
      BrokenAtOnce(env, EncodeAll(fs) + bad, limit);
    }
  }

  /**
   Clean PUBs before a malformed one are lost with it, published by nobody and counted nowhere, if and only if
   the batch reaches it: fewer than 128 of them, or than 1024 when nobody listens. Those not allowed are refused
   all the same.
   */
  lemma {:induction false} MalformedLosesIff(env: Env, fs: seq<Frame>, bad: seq<byte>)
    requires AllPubs(fs, env.max) && AllClean(fs) && Malformed(env, bad)
    ensures var pass := PassOver(env, true, EncodeAll(fs) + bad);
            && (pass.event.Failed? <==> |fs| < Limit(env))
            && (pass.event.Failed? ==>
                  pass.goOn && pass.connected && pass.buf == []
                  && TallyOf(pass.event) == Tally([], 0, RefusedIds(env, fs), []))
  {
    hide Encode;
    hide TakeBatch;
    hide CountBatch;
    hide FastPath;
    hide CountOne;
    hide RefusedIds;
    var buf := EncodeAll(fs) + bad;
    BrokenIff(env, fs, bad, if env.subscribers then PUB_BATCH_LIMIT else NO_SUB_PUB_BATCH_LIMIT);
    if fs == [] {
      assert buf == bad;
    } else {
      var rest := EncodeAll(fs[1..]) + bad;
      assert buf == Encode(fs[0]) + rest;
      NextIsClean(fs[0], rest, env.max);
    }
  }
}
