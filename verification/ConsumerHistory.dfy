/**
 What consumers are handed, read off the calls of a run alone: the messages as they were given to `store`, and
 where each delivery policy starts among them.
 */
module ConsumerHistory {
  import opened Wrappers
  import opened Streams
  import opened Consumers
  import opened ConsumerRuns
  import opened ConsumerService

  // What was stored

  /** The messages a run was given for a stream, in order. */
  function Calls(ops: seq<Op>, stream: string): seq<StoreCall> {
    if ops == [] then []
    else
      var last := ops[|ops| - 1];
      Calls(ops[..|ops| - 1], stream) + if last.StoreMessage? && last.stream == stream then [last.call] else []
  }

  /** The k-th entry is the k-th message given, all of it. */
  ghost predicate CarriesAll(h: seq<StoredMessage>, calls: seq<StoreCall>) {
    |h| == |calls| && forall i :: 0 <= i < |h| ==> Carries(h[i], i + 1, calls[i])
  }

  lemma {:induction false} CarriesNext(h: seq<StoredMessage>, calls: seq<StoreCall>, call: StoreCall)
    requires CarriesAll(h, calls)
    ensures CarriesAll(h + [Stamped(|h| + 1, call)], calls + [call])
  {
  }

  /** The ledger's history of a stream is what the run was given for it. */
  lemma {:induction false} StoredCarries(ops: seq<Op>, stream: string)
    ensures CarriesAll(Stored(RunFrom(EMPTY, ops), stream), Calls(ops, stream))
  {
    hide Step;
    hide CarriesAll;
    if ops == [] {
      NothingCarried();
    } else {
      var before, last := ops[..|ops| - 1], ops[|ops| - 1];
      StoredCarries(before, stream);
      if last.StoreMessage? && last.stream == stream {
        CarriesNext(Stored(RunFrom(EMPTY, before), stream), Calls(before, stream), last.call);
      } else {
        assert Calls(ops, stream) == Calls(before, stream);
      }
    }
  }

  lemma {:induction false} NothingCarried()
    ensures CarriesAll([], [])
  {
  }

  /** The store answers a read with the message it was given, all of it. */
  lemma {:induction false} RunsReadBack(ops: seq<Op>, stream: string, sequence: nat)
    requires LegalRun(ops) && stream in RunFrom(EMPTY, ops).state.streams
    ensures var r := ReadMessage(RunFrom(EMPTY, ops).state.streams, stream, sequence);
            && (r.Success? <==> RunFrom(EMPTY, ops).state.streams[stream].firstSeq <= sequence <= |Calls(ops, stream)|)
            && (r.Success? ==> 1 <= sequence && Carries(r.value, sequence, Calls(ops, stream)[sequence - 1]))
  {
    hide RunFrom;
    var l := RunFrom(EMPTY, ops);
    EmptyInv();
    RunKeepsInv(EMPTY, ops);
    assert Holds(l, AStream(stream));
    StoredCarries(ops, stream);
    ReadReturnsHistory(l.state.streams[stream], Stored(l, stream), sequence);
  }

  /** Every message handed to a consumer is one that was stored in its stream, all of it. */
  lemma {:induction false} HandedAsStored(ops: seq<Op>, p: Name, i: nat)
    requires LegalRun(ops) && p in RunFrom(EMPTY, ops).accounts && i < |Handed(RunFrom(EMPTY, ops), p)|
    ensures var m := Handed(RunFrom(EMPTY, ops), p)[i];
            1 <= m.sequence <= |Calls(ops, p.0)| && Carries(m, m.sequence, Calls(ops, p.0)[m.sequence - 1])
  {
    hide RunFrom;
    HandedIsAStretch(ops, p);
    StoredCarries(ops, p.0);
    var l := RunFrom(EMPTY, ops);
    assert l.accounts[p].handed[i] == Stored(l, p.0)[l.accounts[p].start - 1 + i];
  }

  // Where each policy starts

  /** `handed` begins where the policy says, `before` being what was stored when the consumer was created. */
  ghost predicate StartsRight(
    policy: DeliverPolicy, before: seq<StoredMessage>, h: seq<StoredMessage>, handed: seq<StoredMessage>)
  {
    && before <= h
    && match policy
       case All => handed <= h
       case Last => if before == [] then handed <= h else handed <= h[|before| - 1..]
       case New => handed <= h[|before|..]
       case ByStartSequence(k) => handed == [] || (1 <= k <= |h| && handed <= h[k - 1..])
  }

  /** Consumer `p` was created with `config` on a stream that held `before`, and is still that consumer. */
  ghost predicate Since(l: Ledger, p: Name, policy: DeliverPolicy, before: seq<StoredMessage>) {
    && p in l.accounts && before <= Stored(l, p.0)
    && l.accounts[p].start == StartSeq(policy, |before|)
  }

  lemma {:induction false} CreatedSince(l: Ledger, config: ConsumerConfig)
    requires Inv(l) && AllCounted(l.state.streams) && Creatable(l, config)
    ensures Since(Perform(l, CreateConsumer(config)), NameOf(config), config.deliverPolicy, Stored(l, config.stream))
  {
    hide Inv;
    hide Perform;
    hide StartSeq;
    Created(l, config);
  }

  lemma {:induction false} StillSince(l: Ledger, p: Name, policy: DeliverPolicy, before: seq<StoredMessage>, op: Op)
    requires Inv(l) && AllCounted(l.state.streams) && Legal(op) && Since(l, p, policy, before)
    requires op != DeleteConsumer(p.0, p.1)
    ensures Since(Perform(l, op), p, policy, before)
  {
    hide Store;
    assert Holds(l, AConsumer(p));
  }

  lemma {:induction false} AlwaysSince(
    l: Ledger, p: Name, policy: DeliverPolicy, before: seq<StoredMessage>, ops: seq<Op>)
    requires Inv(l) && AllCounted(l.state.streams) && LegalRun(ops) && Since(l, p, policy, before)
    requires DeleteConsumer(p.0, p.1) !in ops
    ensures Since(RunFrom(l, ops), p, policy, before)
  {
    hide Inv;
    hide AllCounted;
    hide Since;
    hide Perform;
    if ops != [] {
      var n := |ops| - 1;
      assert ops[n] in ops;
      AlwaysSince(l, p, policy, before, ops[..n]);
      RunKeepsInv(l, ops[..n]);
      StillSince(RunFrom(l, ops[..n]), p, policy, before, ops[n]);
    }
  }

  /**
   Over every legal run after its creation that does not delete it, a consumer has been handed: of all
   messages, the stream's from the first on; of the last, those from the last one stored at its creation on;
   of new ones, those stored since its creation; from a number on, those from that number on. Each time
   without a gap and from the very first of them.
   */
  lemma {:induction false} PoliciesStartRight(l: Ledger, config: ConsumerConfig, ops: seq<Op>)
    requires Inv(l) && AllCounted(l.state.streams) && Creatable(l, config) && LegalRun(ops)
    requires DeleteConsumer(config.stream, config.durableName) !in ops
    ensures var p, r := NameOf(config), RunFrom(Perform(l, CreateConsumer(config)), ops);
            StartsRight(config.deliverPolicy, Stored(l, config.stream), Stored(r, config.stream), Handed(r, p))
  {
    hide Inv;
    hide Perform;
    hide RunFrom;
    hide Stored;
    var p, l1, before := NameOf(config), Perform(l, CreateConsumer(config)), Stored(l, config.stream);
    Created(l, config);
    CreatedSince(l, config);
    AlwaysSince(l1, p, config.deliverPolicy, before, ops);
    RunKeepsInv(l1, ops);
    AccountSays(RunFrom(l1, ops), p);
  }

  /** So over a run from the empty store, what a consumer of new messages got was given to the store after it. */
  lemma {:induction false} NewIsNew(ops: seq<Op>, config: ConsumerConfig, more: seq<Op>, i: nat)
    requires LegalRun(ops) && LegalRun(more) && Creatable(RunFrom(EMPTY, ops), config) && config.deliverPolicy == New
    requires DeleteConsumer(config.stream, config.durableName) !in more
    requires i < |Handed(RunFrom(Perform(RunFrom(EMPTY, ops), CreateConsumer(config)), more), NameOf(config))|
    ensures var m := Handed(RunFrom(Perform(RunFrom(EMPTY, ops), CreateConsumer(config)), more), NameOf(config))[i];
            i < |Calls(more, config.stream)|
            && Carries(m, |Calls(ops, config.stream)| + i + 1, Calls(more, config.stream)[i])
  {
    hide RunFrom;
    hide Perform;
    hide Carries;
    var l, op := RunFrom(EMPTY, ops), CreateConsumer(config);
    EmptyInv();
    RunKeepsInv(EMPTY, ops);
    PoliciesStartRight(l, config, more);
    RunAppend(EMPTY, ops, op);
    RunConcat(EMPTY, ops + [op], more);
    StoredCarries(ops, config.stream);
    StoredCarries(ops + [op] + more, config.stream);
    CallsConcat(ops + [op], more, config.stream);
    CallsConcat(ops, [op], config.stream);
    NoCall(op, config.stream);
  }

  lemma {:induction false} NoCall(op: Op, stream: string)
    requires op.CreateConsumer?
    ensures Calls([op], stream) == []
  {
    assert [op][..0] == [];
  }

  lemma {:induction false} CallsConcat(a: seq<Op>, b: seq<Op>, stream: string)
    ensures Calls(a + b, stream) == Calls(a, stream) + Calls(b, stream)
  {
    if b == [] {
      assert a + b == a;
    } else {
      CallsConcat(a, b[..|b| - 1], stream);
      assert (a + b)[..|a + b| - 1] == a + b[..|b| - 1];
    }
  }

  // What the store answers

  /** The streams a run has made, by creating them or by storing into them. */
  function Made(ops: seq<Op>): set<string> {
    if ops == [] then {}
    else
      var last := ops[|ops| - 1];
      Made(ops[..|ops| - 1])
      + if last.CreateStream? then {last.name} else if last.StoreMessage? then {last.stream} else {}
  }

  /** The limits a stream was made with: those given when it was created, none when it was just stored into. */
  function Limits(ops: seq<Op>, stream: string): StreamConfig {
    if ops == [] then StreamConfig(0, 0, 0)
    else
      var before, last := ops[..|ops| - 1], ops[|ops| - 1];
      if last.CreateStream? && last.name == stream && stream !in Made(before) then last.config
      else Limits(before, stream)
  }

  /** The consumers there are: created on a stream that was made, under a name that was free, and not deleted. */
  function Existing(ops: seq<Op>): set<Name> {
    if ops == [] then {}
    else
      var before := ops[..|ops| - 1];
      var were := Existing(before);
      match ops[|ops| - 1]
      case CreateConsumer(config) =>
        if config.stream in Made(before) then were + {(config.stream, config.durableName)} else were
      case DeleteConsumer(stream, name) => were - {(stream, name)}
      case _ => were
  }

  /** Every stream of a run is what storing its messages under its limits gives. */
  ghost predicate StreamsAre(s: StoreState, ops: seq<Op>) {
    && s.streams.Keys == Made(ops)
    && forall n :: n in s.streams ==> s.streams[n] == Run(Limits(ops, n), Calls(ops, n))
  }

  lemma {:induction false} UnmadeHasNothing(ops: seq<Op>, stream: string)
    requires stream !in Made(ops)
    ensures Calls(ops, stream) == [] && Limits(ops, stream) == DEFAULT_CONFIG
  {
    if ops != [] {
      UnmadeHasNothing(ops[..|ops| - 1], stream);
    }
  }

  lemma {:induction false} RunOne(config: StreamConfig, calls: seq<StoreCall>, call: StoreCall)
    ensures Run(config, calls + [call]) == Store(Run(config, calls), call) && Run(config, []) == NewLog(config)
  {
    hide Store;
    assert (calls + [call])[..|calls|] == calls;
  }

  lemma {:induction false} StreamStep(s: StoreState, ops: seq<Op>, op: Op, n: string)
    requires AllCounted(s.streams) && Legal(op) && StreamsAre(s, ops)
    ensures n in Step(s, op).0.streams <==> n in Made(ops + [op])
    ensures n in Step(s, op).0.streams ==>
              Step(s, op).0.streams[n] == Run(Limits(ops + [op], n), Calls(ops + [op], n))
  {
    hide Run;
    hide Store;
    hide AllCounted;
    assert (ops + [op])[..|ops|] == ops;
    assert n in Made(ops + [op]) <==>
           n in Made(ops) || (op.CreateStream? && op.name == n) || (op.StoreMessage? && op.stream == n);
    assert !(op.StoreMessage? && op.stream == n) ==> Calls(ops + [op], n) == Calls(ops, n);
    if n !in Made(ops) {
      UnmadeHasNothing(ops, n);
    }
    if op.StoreMessage? && op.stream == n {
      RunOne(Limits(ops, n), Calls(ops, n), op.call);
    } else {
      RunOne(Limits(ops + [op], n), [], EMPTY_CALL);
    }
  }

  const EMPTY_CALL: StoreCall := StoreCall("", None, [], None, 0, 0)

  /**
   After every legal run each stream is exactly what a stream makes of the messages stored in it under the
   limits it was created with, whatever consumers did in between.
   */
  lemma {:induction false} StreamsAreRuns(ops: seq<Op>)
    requires LegalRun(ops)
    ensures StreamsAre(RunFrom(EMPTY, ops).state, ops)
  {
    hide Step;
    hide Run;
    if ops != [] {
      var before, last := ops[..|ops| - 1], ops[|ops| - 1];
      StreamsAreRuns(before);
      assert ops == before + [last];
      var s, r := RunFrom(EMPTY, before).state, RunFrom(EMPTY, ops).state;
      assert r == Step(s, last).0;
      forall n
        ensures n in r.streams <==> n in Made(ops)
        ensures n in r.streams ==> r.streams[n] == Run(Limits(ops, n), Calls(ops, n))
      {
        StreamStep(s, before, last, n);
      }
    }
  }

  /** The ledger has an account for exactly the consumers there are. */
  lemma {:induction false} AccountsAre(ops: seq<Op>)
    requires LegalRun(ops)
    ensures RunFrom(EMPTY, ops).accounts.Keys == Existing(ops)
  {
    hide Inv;
    hide Store;
    if ops != [] {
      var before, last := ops[..|ops| - 1], ops[|ops| - 1];
      AccountsAre(before);
      StreamsAreRuns(before);
      EmptyInv();
      RunKeepsInv(EMPTY, before);
      var l := RunFrom(EMPTY, before);
      if last.CreateConsumer? {
        var p := NameOf(last.consumer);
        if p !in l.accounts {
          NoAccountNoConsumer(l, p);
        } else {
          AccountSays(l, p);
        }
      }
    }
  }

  /**
   What a caller is answered after any legal run, read off the calls: which stream or consumer is missing or
   already there, and the number a stored message gets.
   */
  lemma {:induction false} RepliesAre(ops: seq<Op>, op: Op)
    requires LegalRun(ops) && Legal(op)
    ensures var reply := Step(RunFrom(EMPTY, ops).state, op).1;
            match op
            case CreateStream(name, _) =>
              reply == if name in Made(ops) then Error(StreamAlreadyExists(name)) else Done
            case StoreMessage(stream, _) => reply == Sequence(|Calls(ops, stream)| + 1)
            case CreateConsumer(config) =>
              if config.stream !in Made(ops) then reply == Error(StreamNotFound(config.stream))
              else if NameOf(config) in Existing(ops) then reply.Error? && reply.error.ConsumerAlreadyExists?
              else reply == Done
            case DeleteConsumer(_, _) => reply == Done
            case NextFor(stream, name, _) =>
              if (stream, name) in Existing(ops) then reply.Message?
              else reply == Error(StreamNotFound("consumer " + name))
            case Ack(_, _, _) => reply.Answer?
            case _ => true
  {
    hide Inv;
    hide Store;
    hide RunFrom;
    hide Run;
    var l := RunFrom(EMPTY, ops);
    StreamsAreRuns(ops);
    AccountsAre(ops);
    EmptyInv();
    RunKeepsInv(EMPTY, ops);
    match op
    case StoreMessage(stream, _) =>
      if stream !in Made(ops) {
        UnmadeHasNothing(ops, stream);
      }
    case CreateConsumer(config) => ExistsIff(l, NameOf(config));
    case NextFor(stream, name, _) => ExistsIff(l, (stream, name));
    case _ =>
  }

  lemma {:induction false} ExistsIff(l: Ledger, p: Name)
    requires Inv(l) && ':' !in p.0
    ensures p in l.accounts <==> Key(p.0, p.1) in l.state.consumers
  {
    hide Inv;
    if p in l.accounts {
      AccountSays(l, p);
    } else {
      NoAccountNoConsumer(l, p);
    }
  }

  /** A read that fails says what is missing. */
  lemma {:induction false} FailedReads(ops: seq<Op>, stream: string, sequence: nat)
    requires LegalRun(ops)
    ensures var r := ReadMessage(RunFrom(EMPTY, ops).state.streams, stream, sequence);
            && (r == Failure(StreamNotFound(stream)) <==> stream !in Made(ops))
            && (r.Failure? && stream in Made(ops) ==> r.error == InvalidOffset(sequence, |Calls(ops, stream)|))
  {
    hide RunFrom;
    hide Run;
    StreamsAreRuns(ops);
  }

  /**
   Deleting a stream forgets its messages and touches no other stream; a consumer of it stays where it was,
   is handed nothing, and goes on at its old cursor when the stream is made again.
   */
  lemma {:induction false} DeletedStream(s: StoreState, stream: string, name: string, now: nat)
    requires AllCounted(s.streams)
    ensures var r := Step(s, DeleteStream(stream)).0;
            && (forall k :: ReadMessage(r.streams, stream, k) == Failure(StreamNotFound(stream)))
            && (forall n :: n != stream ==> (n in r.streams <==> n in s.streams)
                                            && (n in s.streams ==> r.streams[n] == s.streams[n]))
            && r.consumers == s.consumers
            && (Key(stream, name) in s.consumers ==> NextForConsumer(r, stream, name, now) == (r, Message(None)))
            && Target(r.streams, stream) == Run(StreamConfig(0, 0, 0), [])
  {
  }

  /** A request notes when it handed its message out; an acknowledgement strikes out that message and no other. */
  lemma {:induction false} PendingTimes(s: StoreState, stream: string, name: string, now: nat, sequence: nat)
    requires AllCounted(s.streams) && Key(stream, name) in s.consumers
    ensures var key := Key(stream, name);
            var (r, reply) := Step(s, NextFor(stream, name, now));
            key in r.consumers && reply.Message? && forall i :: i in r.consumers[key].pending ==>
              if reply.message.Some? && i == s.consumers[key].next then r.consumers[key].pending[i] == now
              else i in s.consumers[key].pending && r.consumers[key].pending[i] == s.consumers[key].pending[i]
    ensures var key := Key(stream, name);
            var r := Step(s, Ack(stream, name, sequence)).0;
            key in r.consumers && r.consumers[key].pending == s.consumers[key].pending - {sequence}
  {
  }
}
