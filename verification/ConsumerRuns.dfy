/**
 What consumers are handed over whole runs. A ledger notes only what callers see: the messages stored in
 each stream, the messages handed to each consumer since its creation and the acknowledgements accepted.
 */
module ConsumerRuns {
  import opened Wrappers
  import opened Streams
  import opened Consumers

  /** A consumer as its users name it: stream and durable name. */
  type Name = (string, string)

  datatype Account = Account(start: nat, handed: seq<StoredMessage>, acked: set<nat>)

  function WithHanded(a: Account, m: StoredMessage): Account {
    a.(handed := a.handed + [m])
  }

  function WithAcked(a: Account, sequence: nat): Account {
    a.(acked := a.acked + {sequence})
  }

  datatype Ledger = Ledger(state: StoreState, stored: map<string, seq<StoredMessage>>, accounts: map<Name, Account>)

  const EMPTY := Ledger(StoreState(map[], map[]), map[], map[])

  function Stored(l: Ledger, stream: string): seq<StoredMessage> {
    if stream in l.stored then l.stored[stream] else []
  }

  function Note(l: Ledger, op: Op, reply: Reply): Ledger {
    match op
    case StoreMessage(stream, call) =>
      l.(stored := l.stored[stream := Stored(l, stream) + [Stamped(|Stored(l, stream)| + 1, call)]])
    case CreateConsumer(config) =>
      if reply != Done then l
      else
        var start := StartSeq(config.deliverPolicy, |Stored(l, config.stream)|);
        l.(accounts := l.accounts[(config.stream, config.durableName) := Account(start, [], {})])
    case DeleteConsumer(stream, name) => l.(accounts := l.accounts - {(stream, name)})
    case NextFor(stream, name, now) =>
      if !(reply.Message? && reply.message.Some? && (stream, name) in l.accounts) then l
      else
        var a := l.accounts[(stream, name)];
        l.(accounts := l.accounts[(stream, name) := WithHanded(a, reply.message.value)])
    case Ack(stream, name, sequence) =>
      if !(reply == Answer(true) && (stream, name) in l.accounts) then l
      else
        var a := l.accounts[(stream, name)];
        l.(accounts := l.accounts[(stream, name) := WithAcked(a, sequence)])
    case _ => l
  }

  function Perform(l: Ledger, op: Op): (r: Ledger)
    requires AllCounted(l.state.streams)
    ensures AllCounted(r.state.streams)
  {
    var (state, reply) := Step(l.state, op);
    Note(l, op, reply).(state := state)
  }

  /** No stream is deleted, and streams with consumers have no colon in their name. */
  predicate Legal(op: Op) {
    match op
    case DeleteStream(_) => false
    case CreateConsumer(config) => ':' !in config.stream
    case DeleteConsumer(stream, _) => ':' !in stream
    case NextFor(stream, _, _) => ':' !in stream
    case Ack(stream, _, _) => ':' !in stream
    case _ => true
  }

  // The invariant

  /** The sequence numbers of `n` messages from `start` on. */
  function Span(start: nat, n: nat): (r: set<nat>)
    ensures forall i :: i in r <==> start <= i < start + n
    ensures |r| == n
  {
    if n == 0 then {} else Span(start, n - 1) + {start + n - 1}
  }

  /** The messages handed out are the stretch of the history from `start` on: no gap, no repetition. */
  ghost predicate Stretch(handed: seq<StoredMessage>, h: seq<StoredMessage>, start: nat) {
    handed != [] ==>
      && 1 <= start && start - 1 + |handed| <= |h|
      && forall i :: 0 <= i < |handed| ==> handed[i] == h[start - 1 + i]
  }

  /** Pending are the `n` numbers from `start` on without the acknowledged ones, which are among them. */
  ghost predicate Outstanding(pending: map<nat, nat>, start: nat, n: nat, acked: set<nat>) {
    && (forall i :: i in acked ==> start <= i < start + n)
    && (forall i :: i in pending <==> start <= i < start + n && i !in acked)
  }

  /** The cursor's counters and pending map say what was handed out and acknowledged. */
  ghost predicate Balanced(c: Cursor, a: Account) {
    && c.next == a.start + |a.handed|
    && c.delivered == |a.handed|
    && c.acked == |a.acked|
    && Outstanding(c.pending, a.start, |a.handed|, a.acked)
    && c.pendingCount == |c.pending|
    && (c.config.maxAckPending > 0 ==> c.pendingCount <= c.config.maxAckPending)
  }

  ghost predicate StreamOk(l: Ledger, stream: string) {
    if stream in l.state.streams then Tracks(l.state.streams[stream], Stored(l, stream))
    else Stored(l, stream) == []
  }

  ghost predicate AccountOk(c: Cursor, h: seq<StoredMessage>, a: Account) {
    Balanced(c, a) && Stretch(a.handed, h, a.start)
  }

  ghost predicate ConsumerOk(l: Ledger, p: Name) {
    p in l.accounts ==>
      && ':' !in p.0
      && p.0 in l.state.streams
      && Key(p.0, p.1) in l.state.consumers
      && var c := l.state.consumers[Key(p.0, p.1)];
        (c.config.stream, c.config.durableName) == p && AccountOk(c, Stored(l, p.0), l.accounts[p])
  }

  /** Every consumer in the map is one the ledger has an account for. */
  ghost predicate KeyOk(l: Ledger, key: string) {
    key in l.state.consumers ==>
      var config := l.state.consumers[key].config;
      key == Key(config.stream, config.durableName) && (config.stream, config.durableName) in l.accounts
  }

  datatype Part = AStream(stream: string) | AConsumer(name: Name) | AKey(key: string)

  ghost predicate Holds(l: Ledger, part: Part) {
    match part
    case AStream(stream) => StreamOk(l, stream)
    case AConsumer(p) => ConsumerOk(l, p)
    case AKey(key) => KeyOk(l, key)
  }

  ghost predicate Inv(l: Ledger) {
    forall part :: Holds(l, part)
  }

  // One step of one consumer

  lemma {:induction false} MapGrows(m: map<nat, nat>, key: nat, value: nat)
    requires key !in m
    ensures |m[key := value]| == |m| + 1
  {
    assert m[key := value].Keys == m.Keys + {key};
  }

  lemma {:induction false} MapShrinks(m: map<nat, nat>, key: nat)
    requires key in m
    ensures |m - {key}| == |m| - 1
  {
    assert (m - {key}).Keys == m.Keys - {key};
  }

  lemma {:induction false} RecordBalances(c: Cursor, a: Account, m: StoredMessage, now: nat)
    requires Balanced(c, a) && !Backpressured(c)
    ensures Balanced(RecordDelivery(c, c.next, now), WithHanded(a, m))
  {
    MapGrows(c.pending, c.next, now);
  }

  lemma {:induction false} AckBalances(c: Cursor, a: Account, sequence: nat)
    requires Balanced(c, a) && sequence in c.pending
    ensures Balanced(Acknowledge(c, sequence).0, WithAcked(a, sequence))
  {
    MapShrinks(c.pending, sequence);
  }

  lemma {:induction false} PendingIff(c: Cursor, a: Account, sequence: nat)
    requires Balanced(c, a)
    ensures sequence in c.pending <==> a.start <= sequence < a.start + |a.handed| && sequence !in a.acked
  {
  }

  /** Delivered is acknowledged plus pending. */
  lemma {:induction false} CountsAddUp(c: Cursor, a: Account)
    requires Balanced(c, a)
    ensures c.delivered == c.acked + c.pendingCount
  {
    var span := Span(a.start, |a.handed|);
    assert c.pending.Keys == span - a.acked && a.acked <= span;
    assert |span| == |span - a.acked| + |a.acked|;
    assert |c.pending| == |c.pending.Keys|;
  }

  lemma {:induction false} StretchExtend(handed: seq<StoredMessage>, h: seq<StoredMessage>, start: nat, next: nat)
    requires Stretch(handed, h, start)
    requires next == start + |handed| && 1 <= next <= |h| && (handed == [] ==> 1 <= start)
    ensures Stretch(handed + [h[next - 1]], h, start)
  {
  }

  lemma {:induction false} StretchAppend(
    handed: seq<StoredMessage>, h: seq<StoredMessage>, start: nat, m: StoredMessage)
    requires Stretch(handed, h, start)
    ensures Stretch(handed, h + [m], start)
  {
  }

  // Preservation

  lemma {:induction false} CreateStreamKeepsInv(l: Ledger, name: string, config: StreamConfig)
    requires Inv(l) && AllCounted(l.state.streams)
    ensures Inv(Perform(l, CreateStream(name, config)))
  {
    hide Balanced, Stretch, Weight, Suffix;
    var r := Perform(l, CreateStream(name, config));
    forall part ensures Holds(r, part) {
      assert Holds(l, part);
      match part
      case AStream(stream) => CreateStreamKeepsStream(l, name, config, stream);
      case AConsumer(_) =>
      case AKey(_) =>
    }
  }

  lemma {:induction false} CreateStreamKeepsStream(l: Ledger, name: string, config: StreamConfig, stream: string)
    requires AllCounted(l.state.streams) && StreamOk(l, stream)
    ensures StreamOk(Perform(l, CreateStream(name, config)), stream)
  {
    if stream == name && name !in l.state.streams {
      assert Tracks(NewLog(config), []);
    }
  }

  lemma {:induction false} StoreMessageKeepsInv(l: Ledger, name: string, call: StoreCall)
    requires Inv(l) && AllCounted(l.state.streams)
    ensures Inv(Perform(l, StoreMessage(name, call)))
  {
    var r := Perform(l, StoreMessage(name, call));
    forall part ensures Holds(r, part) {
      assert Holds(l, part);
      match part
      case AStream(stream) => StoreKeepsStream(l, name, call, stream);
      case AConsumer(p) => StoreKeepsConsumer(l, name, call, p);
      case AKey(_) =>
    }
  }

  lemma {:induction false} StoreKeepsStream(l: Ledger, name: string, call: StoreCall, stream: string)
    requires AllCounted(l.state.streams) && StreamOk(l, stream)
    ensures StreamOk(Perform(l, StoreMessage(name, call)), stream)
  {
    hide Tracks;
    hide Store;
    hide AllCounted;
    if stream == name {
      TargetTracks(l, name);
      StoreTracks(Target(l.state.streams, name), Stored(l, name), call);
    }
  }

  lemma {:induction false} TargetTracks(l: Ledger, name: string)
    requires StreamOk(l, name)
    ensures Tracks(Target(l.state.streams, name), Stored(l, name))
  {
  }

  lemma {:induction false} StoreKeepsConsumer(l: Ledger, name: string, call: StoreCall, p: Name)
    requires AllCounted(l.state.streams) && ConsumerOk(l, p)
    ensures ConsumerOk(Perform(l, StoreMessage(name, call)), p)
  {
    if p in l.accounts && p.0 == name {
      var a := l.accounts[p];
      StretchAppend(a.handed, Stored(l, name), a.start, Stamped(|Stored(l, name)| + 1, call));
    }
  }

  lemma {:induction false} CreateConsumerKeepsInv(l: Ledger, config: ConsumerConfig)
    requires Inv(l) && AllCounted(l.state.streams) && ':' !in config.stream
    ensures Inv(Perform(l, CreateConsumer(config)))
  {
    var r := Perform(l, CreateConsumer(config));
    assert Holds(l, AStream(config.stream));
    forall part ensures Holds(r, part) {
      assert Holds(l, part);
    }
  }

  lemma {:induction false} DeleteConsumerKeepsInv(l: Ledger, stream: string, name: string)
    requires Inv(l) && AllCounted(l.state.streams) && ':' !in stream
    ensures Inv(Perform(l, DeleteConsumer(stream, name)))
  {
    var r := Perform(l, DeleteConsumer(stream, name));
    forall part ensures Holds(r, part) {
      assert Holds(l, part);
      if part.AConsumer? && part.name in l.accounts && Key(part.name.0, part.name.1) == Key(stream, name) {
        KeyInjective(part.name.0, part.name.1, stream, name);
      }
    }
  }

  /** The ledger after one account and its cursor change. */
  function Changed(l: Ledger, p: Name, c: Cursor, a: Account): Ledger {
    l.(state := l.state.(consumers := l.state.consumers[Key(p.0, p.1) := c]), accounts := l.accounts[p := a])
  }

  lemma {:induction false} ChangeKeepsInv(l: Ledger, p: Name, c: Cursor, a: Account)
    requires Inv(l) && p in l.accounts && Key(p.0, p.1) in l.state.consumers
    requires c.config == l.state.consumers[Key(p.0, p.1)].config
    requires AccountOk(c, Stored(l, p.0), a)
    ensures Inv(Changed(l, p, c, a))
  {
    var r := Changed(l, p, c, a);
    assert Holds(l, AConsumer(p));
    forall part ensures Holds(r, part) {
      assert Holds(l, part);
      if part.AConsumer? {
        ChangeKeepsConsumer(l, p, c, a, part.name);
      }
    }
  }

  lemma {:induction false} ChangeKeepsConsumer(l: Ledger, p: Name, c: Cursor, a: Account, q: Name)
    requires p in l.accounts && ConsumerOk(l, p) && ConsumerOk(l, q)
    requires c.config == l.state.consumers[Key(p.0, p.1)].config
    requires AccountOk(c, Stored(l, p.0), a)
    ensures ConsumerOk(Changed(l, p, c, a), q)
  {
    if q in l.accounts && Key(p.0, p.1) == Key(q.0, q.1) {
      KeyInjective(p.0, p.1, q.0, q.1);
    }
  }

  /** What the consumer would be handed now. */
  function Due(l: Ledger, p: Name): Option<StoredMessage>
    requires p.0 in l.state.streams && Key(p.0, p.1) in l.state.consumers
  {
    var c := l.state.consumers[Key(p.0, p.1)];
    if !Backpressured(c) && 1 <= c.next && l.state.streams[p.0].firstSeq <= c.next <= |Stored(l, p.0)|
    then Some(Stored(l, p.0)[c.next - 1]) else None
  }

  /**
   A consumer is handed the message of the history at its cursor exactly when it is not held back and
   the stream still has that message; otherwise it is handed nothing and nothing changes.
   */
  lemma {:induction false} NextDelivers(l: Ledger, p: Name, now: nat)
    requires Inv(l) && p in l.accounts
    ensures ConsumerOk(l, p)
    ensures NextForConsumer(l.state, p.0, p.1, now).1 == Message(Due(l, p))
    ensures var c := l.state.consumers[Key(p.0, p.1)];
            NextForConsumer(l.state, p.0, p.1, now).0.consumers ==
            if Due(l, p).None? then l.state.consumers
            else l.state.consumers[Key(p.0, p.1) := RecordDelivery(c, c.next, now)]
  {
    assert Holds(l, AConsumer(p));
    assert Holds(l, AStream(p.0));
    ReadReturnsHistory(l.state.streams[p.0], Stored(l, p.0), l.state.consumers[Key(p.0, p.1)].next);
  }

  /** A consumer that has no account is not in the store either. */
  lemma {:induction false} NoAccountNoConsumer(l: Ledger, p: Name)
    requires Inv(l) && ':' !in p.0 && p !in l.accounts
    ensures Key(p.0, p.1) !in l.state.consumers
  {
    var key := Key(p.0, p.1);
    assert Holds(l, AKey(key));
    if key in l.state.consumers {
      var config := l.state.consumers[key].config;
      assert Holds(l, AConsumer((config.stream, config.durableName)));
      KeyInjective(p.0, p.1, config.stream, config.durableName);
    }
  }

  lemma {:induction false} NextKeepsInv(l: Ledger, p: Name, now: nat)
    requires Inv(l) && AllCounted(l.state.streams) && ':' !in p.0
    ensures Inv(Perform(l, NextFor(p.0, p.1, now)))
  {
    if p !in l.accounts {
      NoAccountNoConsumer(l, p);
    } else {
      NextDelivers(l, p, now);
      var c := l.state.consumers[Key(p.0, p.1)];
      var a := l.accounts[p];
      if Due(l, p).Some? {
        var m := Due(l, p).value;
        RecordKeepsAccount(c, Stored(l, p.0), a, now);
        ChangeKeepsInv(l, p, RecordDelivery(c, c.next, now), WithHanded(a, m));
      }
    }
  }

  lemma {:induction false} RecordKeepsAccount(c: Cursor, h: seq<StoredMessage>, a: Account, now: nat)
    requires AccountOk(c, h, a) && !Backpressured(c) && 1 <= c.next <= |h|
    requires a.handed == [] ==> 1 <= a.start
    ensures AccountOk(RecordDelivery(c, c.next, now), h, WithHanded(a, h[c.next - 1]))
  {
    RecordBalances(c, a, h[c.next - 1], now);
    StretchExtend(a.handed, h, a.start, c.next);
  }

  lemma {:induction false} AckKeepsInv(l: Ledger, p: Name, sequence: nat)
    requires Inv(l) && AllCounted(l.state.streams) && ':' !in p.0
    ensures Inv(Perform(l, Ack(p.0, p.1, sequence)))
  {
    if p !in l.accounts {
      NoAccountNoConsumer(l, p);
    } else {
      assert Holds(l, AConsumer(p));
      var c := l.state.consumers[Key(p.0, p.1)];
      var a := l.accounts[p];
      if sequence in c.pending {
        AckBalances(c, a, sequence);
        ChangeKeepsInv(l, p, Acknowledge(c, sequence).0, WithAcked(a, sequence));
      } else {
        ChangeKeepsInv(l, p, c, a);
        assert l.accounts[p := a] == l.accounts;
      }
    }
  }

  lemma {:induction false} PerformKeepsInv(l: Ledger, op: Op)
    requires Inv(l) && AllCounted(l.state.streams) && Legal(op)
    ensures Inv(Perform(l, op))
  {
    match op
    case CreateStream(name, config) => CreateStreamKeepsInv(l, name, config);
    case StoreMessage(stream, call) => StoreMessageKeepsInv(l, stream, call);
    case CreateConsumer(config) => CreateConsumerKeepsInv(l, config);
    case DeleteConsumer(stream, name) => DeleteConsumerKeepsInv(l, stream, name);
    case NextFor(stream, name, now) => NextKeepsInv(l, (stream, name), now);
    case Ack(stream, name, sequence) => AckKeepsInv(l, (stream, name), sequence);
  }

  // Whole runs

  function RunFrom(l: Ledger, ops: seq<Op>): (r: Ledger)
    requires AllCounted(l.state.streams)
    ensures AllCounted(r.state.streams)
  {
    if ops == [] then l else Perform(RunFrom(l, ops[..|ops| - 1]), ops[|ops| - 1])
  }

  /** What the callers of a run are answered, one reply after the other. */
  function Replies(l: Ledger, ops: seq<Op>): seq<Reply>
    requires AllCounted(l.state.streams)
  {
    if ops == [] then []
    else
      var before := ops[..|ops| - 1];
      Replies(l, before) + [Step(RunFrom(l, before).state, ops[|ops| - 1]).1]
  }

  ghost predicate LegalRun(ops: seq<Op>) {
    forall i :: 0 <= i < |ops| ==> Legal(ops[i])
  }

  lemma {:induction false} RunKeepsInv(l: Ledger, ops: seq<Op>)
    requires Inv(l) && AllCounted(l.state.streams) && LegalRun(ops)
    ensures Inv(RunFrom(l, ops))
  {
    if ops != [] {
      RunKeepsInv(l, ops[..|ops| - 1]);
      PerformKeepsInv(RunFrom(l, ops[..|ops| - 1]), ops[|ops| - 1]);
    }
  }

  lemma {:induction false} EmptyInv()
    ensures Inv(EMPTY)
  {
    forall part ensures Holds(EMPTY, part) {
    }
  }

  ghost predicate Numbered(h: seq<StoredMessage>) {
    forall i :: 0 <= i < |h| ==> h[i].sequence == i + 1
  }

  lemma {:induction false} StoredNumbered(ops: seq<Op>, stream: string)
    ensures Numbered(Stored(RunFrom(EMPTY, ops), stream))
  {
    if ops != [] {
      StoredNumbered(ops[..|ops| - 1], stream);
    }
  }

  /**
   Over every run without stream deletion, the messages handed to a consumer since its creation are the
   stretch of the stream's history that begins at its start sequence, each number once and none left out.
   */
  lemma {:induction false} HandedIsAStretch(ops: seq<Op>, p: Name)
    requires LegalRun(ops) && p in RunFrom(EMPTY, ops).accounts
    ensures var l := RunFrom(EMPTY, ops);
            var a := l.accounts[p];
            var h := Stored(l, p.0);
            && (a.handed != [] ==> 1 <= a.start && a.start - 1 + |a.handed| <= |h| &&
                                   a.handed == h[a.start - 1..a.start - 1 + |a.handed|])
            && forall i :: 0 <= i < |a.handed| ==> a.handed[i].sequence == a.start + i
  {
    var l := RunFrom(EMPTY, ops);
    EmptyInv();
    RunKeepsInv(EMPTY, ops);
    assert Holds(l, AConsumer(p));
    StoredNumbered(ops, p.0);
    StretchIsSlice(l.accounts[p].handed, Stored(l, p.0), l.accounts[p].start);
  }

  lemma {:induction false} StretchIsSlice(handed: seq<StoredMessage>, h: seq<StoredMessage>, start: nat)
    requires Stretch(handed, h, start) && Numbered(h)
    ensures handed != [] ==> 1 <= start && start - 1 + |handed| <= |h| && handed == h[start - 1..start - 1 + |handed|]
    ensures forall i :: 0 <= i < |handed| ==> handed[i].sequence == start + i
  {
  }

  /**
   Over every run without stream deletion a consumer's counters are exact: pending is delivered minus
   acknowledged, and a bound on unacknowledged messages is never exceeded.
   */
  lemma {:induction false} CountersAreExact(ops: seq<Op>, p: Name)
    requires LegalRun(ops) && p in RunFrom(EMPTY, ops).accounts
    ensures Key(p.0, p.1) in RunFrom(EMPTY, ops).state.consumers
    ensures var c := RunFrom(EMPTY, ops).state.consumers[Key(p.0, p.1)];
            var a := RunFrom(EMPTY, ops).accounts[p];
            && c.pending.Keys == Span(a.start, |a.handed|) - a.acked
            && c.pendingCount == |c.pending|
            && c.delivered == |a.handed| && c.acked == |a.acked|
            && c.delivered == c.acked + c.pendingCount
            && (c.config.maxAckPending > 0 ==> c.pendingCount <= c.config.maxAckPending)
  {
    EmptyInv();
    RunKeepsInv(EMPTY, ops);
    assert Holds(RunFrom(EMPTY, ops), AConsumer(p));
    CountsAddUp(RunFrom(EMPTY, ops).state.consumers[Key(p.0, p.1)], RunFrom(EMPTY, ops).accounts[p]);
  }

  /** The consumer was handed a message with this number. */
  ghost predicate WasHanded(l: Ledger, p: Name, sequence: nat) {
    p in l.accounts && exists i :: 0 <= i < |l.accounts[p].handed| && l.accounts[p].handed[i].sequence == sequence
  }

  /**
   After every run, an acknowledgement is answered with true if and only if the consumer exists, was handed
   a message with that number and had no acknowledgement of it accepted.
   */
  lemma {:induction false} AckAcceptedIff(ops: seq<Op>, p: Name, sequence: nat)
    requires LegalRun(ops) && ':' !in p.0
    ensures var l := RunFrom(EMPTY, ops);
            Step(l.state, Ack(p.0, p.1, sequence)).1 ==
            Answer(WasHanded(l, p, sequence) && sequence !in l.accounts[p].acked)
  {
    hide RunFrom;
    var l := RunFrom(EMPTY, ops);
    EmptyInv();
    RunKeepsInv(EMPTY, ops);
    if p !in l.accounts {
      NoAccountNoConsumer(l, p);
    } else {
      var a := l.accounts[p];
      HandedIsAStretch(ops, p);
      assert Holds(l, AConsumer(p));
      PendingIff(l.state.consumers[Key(p.0, p.1)], a, sequence);
      if a.start <= sequence < a.start + |a.handed| {
        assert a.handed[sequence - a.start].sequence == sequence;
      }
    }
  }

  // A consumer overtaken by retention

  /** The stream no longer has the message at the consumer's cursor, nor any before it. */
  ghost predicate Lapped(l: Ledger, p: Name) {
    && p in l.accounts
    && p.0 in l.state.streams
    && Key(p.0, p.1) in l.state.consumers
    && l.state.consumers[Key(p.0, p.1)].next < l.state.streams[p.0].firstSeq
  }

  /** An operation on another consumer leaves this one alone. */
  lemma {:induction false} OthersUntouched(l: Ledger, p: Name, q: Name)
    requires Inv(l) && p in l.accounts && p != q && ':' !in q.0
    ensures ConsumerOk(l, p) && Key(q.0, q.1) != Key(p.0, p.1)
  {
    assert Holds(l, AConsumer(p));
    if Key(q.0, q.1) == Key(p.0, p.1) {
      KeyInjective(p.0, p.1, q.0, q.1);
    }
  }

  /** The consumer an operation is about. */
  function About(op: Op): Option<Name> {
    match op
    case CreateConsumer(config) => Some((config.stream, config.durableName))
    case DeleteConsumer(stream, name) => Some((stream, name))
    case NextFor(stream, name, _) => Some((stream, name))
    case Ack(stream, name, _) => Some((stream, name))
    case _ => None
  }

  lemma {:induction false} LappedStaysStored(l: Ledger, p: Name, stream: string, call: StoreCall)
    requires AllCounted(l.state.streams) && Lapped(l, p)
    ensures Lapped(Perform(l, StoreMessage(stream, call)), p)
    ensures Perform(l, StoreMessage(stream, call)).accounts == l.accounts
  {
    FirstSeqNeverDecreases(Target(l.state.streams, stream), call);
  }

  lemma {:induction false} LappedStaysOther(l: Ledger, p: Name, op: Op)
    requires Inv(l) && AllCounted(l.state.streams) && Legal(op) && Lapped(l, p)
    requires About(op) != Some(p)
    ensures Lapped(Perform(l, op), p)
    ensures Perform(l, op).accounts[p] == l.accounts[p]
  {
    hide Inv;
    hide ConsumerOk;
    hide AllCounted;
    hide Store;
    match op
    case CreateStream(_, _) =>
    case StoreMessage(stream, call) => LappedStaysStored(l, p, stream, call);
    case CreateConsumer(config) => OthersUntouched(l, p, (config.stream, config.durableName));
    case DeleteConsumer(stream, name) => OthersUntouched(l, p, (stream, name));
    case NextFor(stream, name, now) => OthersUntouched(l, p, (stream, name));
    case Ack(stream, name, sequence) => OthersUntouched(l, p, (stream, name));
  }

  lemma {:induction false} LappedStaysOwn(l: Ledger, p: Name, op: Op)
    requires Inv(l) && AllCounted(l.state.streams) && Legal(op) && Lapped(l, p)
    requires About(op) == Some(p) && !op.DeleteConsumer?
    ensures Lapped(Perform(l, op), p)
    ensures Perform(l, op).accounts[p].handed == l.accounts[p].handed
  {
    if op.NextFor? {
      NextDelivers(l, p, op.now);
    }
  }

  /**
   Once retention has moved past a consumer's cursor, no run of stores, acknowledgements and requests
   ever hands it another message: only deleting and creating it again helps.
   */
  lemma {:induction false} LappedForever(l: Ledger, p: Name, ops: seq<Op>)
    requires Inv(l) && AllCounted(l.state.streams) && LegalRun(ops) && Lapped(l, p)
    requires DeleteConsumer(p.0, p.1) !in ops
    ensures Lapped(RunFrom(l, ops), p)
    ensures RunFrom(l, ops).accounts[p].handed == l.accounts[p].handed
  {
    if ops != [] {
      var before := ops[..|ops| - 1];
      LappedForever(l, p, before);
      RunKeepsInv(l, before);
      assert ops[|ops| - 1] in ops;
      if About(ops[|ops| - 1]) == Some(p) {
        LappedStaysOwn(RunFrom(l, before), p, ops[|ops| - 1]);
      } else {
        LappedStaysOther(RunFrom(l, before), p, ops[|ops| - 1]);
      }
    }
  }

  /**
   So a consumer created to start before what the stream retains is never served: `DeliverPolicy::All`
   gets nothing at all from a stream that has dropped its first message.
   */
  lemma {:induction false} TooEarlyIsNeverServed(l: Ledger, config: ConsumerConfig, ops: seq<Op>)
    requires Inv(l) && AllCounted(l.state.streams) && ':' !in config.stream && LegalRun(ops)
    requires config.stream in l.state.streams && (config.stream, config.durableName) !in l.accounts
    requires StartSeq(config.deliverPolicy, |Stored(l, config.stream)|) < l.state.streams[config.stream].firstSeq
    requires DeleteConsumer(config.stream, config.durableName) !in ops
    ensures var p := (config.stream, config.durableName);
            var r := RunFrom(Perform(l, CreateConsumer(config)), ops);
            p in r.accounts && r.accounts[p].handed == []
  {
    var p := (config.stream, config.durableName);
    var l1 := Perform(l, CreateConsumer(config));
    NoAccountNoConsumer(l, p);
    assert Holds(l, AStream(config.stream));
    PerformKeepsInv(l, CreateConsumer(config));
    LappedForever(l1, p, ops);
  }
}
