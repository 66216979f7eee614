/** Durable consumers over the stream store: cursors, pending acknowledgements and back pressure. */
module Consumers {
  import opened Wrappers
  import opened Streams

  datatype DeliverPolicy = All | Last | New | ByStartSequence(sequence: nat)

  datatype AckPolicy = NoAck | Explicit | AckAll

  datatype ConsumerConfig = ConsumerConfig(
    durableName: string, stream: string, filterSubject: Option<string>, deliverPolicy: DeliverPolicy,
    ackPolicy: AckPolicy, maxAckPending: nat)

  /** The value of a `Consumer`. */
  datatype Cursor = Cursor(
    config: ConsumerConfig, next: nat, pendingCount: nat, pending: map<nat, nat>, delivered: nat, acked: nat)

  datatype StoreError =
    | StreamNotFound(what: string)
    | StreamAlreadyExists(name: string)
    | ConsumerAlreadyExists(what: string)
    | InvalidOffset(requested: nat, max: nat)

  function StartSeq(policy: DeliverPolicy, streamLastSeq: nat): nat {
    match policy
    case All => 1
    case Last => if streamLastSeq < 1 then 1 else streamLastSeq
    case New => streamLastSeq + 1
    case ByStartSequence(sequence) => sequence
  }

  function NewCursor(config: ConsumerConfig, streamLastSeq: nat): Cursor {
    Cursor(config, StartSeq(config.deliverPolicy, streamLastSeq), 0, map[], 0, 0)
  }

  function RecordDelivery(c: Cursor, sequence: nat, now: nat): Cursor {
    c.(pending := c.pending[sequence := now], pendingCount := c.pendingCount + 1,
       delivered := c.delivered + 1, next := sequence + 1)
  }

  function Acknowledge(c: Cursor, sequence: nat): (Cursor, bool) {
    if sequence in c.pending then
      var rest := c.pending - {sequence};
      (c.(pending := rest, pendingCount := |rest|, acked := c.acked + 1), true)
    else (c, false)
  }

  predicate Backpressured(c: Cursor) {
    c.config.maxAckPending > 0 && c.pendingCount >= c.config.maxAckPending
  }

  /** `consumer_key`: the stream name, a colon, the consumer name. */
  function Key(stream: string, name: string): string {
    stream + ":" + name
  }

  /** The longer stream name goes on after a colon with what the other consumer's name begins with. */
  ghost predicate Straddles(stream: string, name: string, stream': string, name': string) {
    exists part :: stream' == stream + ":" + part && name == part + ":" + name'
  }

  lemma {:induction false} ShorterCollides(stream: string, name: string, stream': string, name': string)
    requires Key(stream, name) == Key(stream', name') && |stream| < |stream'|
    ensures Straddles(stream, name, stream', name')
  {
    var k := Key(stream, name);
    assert k[..|stream|] == stream && k[|stream|] == ':' && k[|stream| + 1..] == name;
    assert k[..|stream'|] == stream' && k[|stream'|] == ':' && k[|stream'| + 1..] == name';
    var part := k[|stream| + 1..|stream'|];
    assert stream' == stream + ":" + part;
    assert name == part + ":" + name';
  }

  /** Two consumers share a key if and only if they are the same or one name straddles the other's colon. */
  lemma {:induction false} KeysCollideIff(stream: string, name: string, stream': string, name': string)
    ensures Key(stream, name) == Key(stream', name') <==>
            (stream == stream' && name == name') || Straddles(stream, name, stream', name') ||
            Straddles(stream', name', stream, name)
  {
    if Key(stream, name) == Key(stream', name') {
      if |stream| < |stream'| {
        ShorterCollides(stream, name, stream', name');
      } else if |stream'| < |stream| {
        ShorterCollides(stream', name', stream, name);
      } else {
        var k := Key(stream, name);
        assert stream == k[..|stream|] == stream' && name == k[|stream| + 1..] == name';
      }
    }
    if part :| stream' == stream + ":" + part && name == part + ":" + name' {
      assert stream + ":" + (part + ":" + name') == stream + ":" + part + ":" + name';
    }
    if part :| stream == stream' + ":" + part && name' == part + ":" + name {
      assert stream' + ":" + (part + ":" + name) == stream' + ":" + part + ":" + name;
    }
  }

  /** So the key determines stream and consumer as long as stream names hold no colon. */
  lemma {:induction false} KeyInjective(stream: string, name: string, stream': string, name': string)
    requires ':' !in stream && ':' !in stream'
    requires Key(stream, name) == Key(stream', name')
    ensures stream == stream' && name == name'
  {
    KeysCollideIff(stream, name, stream', name');
    StraddlingHasColon(stream, name, stream', name');
    StraddlingHasColon(stream', name', stream, name);
  }

  lemma {:induction false} StraddlingHasColon(stream: string, name: string, stream': string, name': string)
    ensures Straddles(stream, name, stream', name') ==> ':' in stream'
  {
    if part :| stream' == stream + ":" + part && name == part + ":" + name' {
      assert stream'[|stream|] == ':';
    }
  }

  // The store and the consumer manager together

  datatype StoreState = StoreState(streams: map<string, Log>, consumers: map<string, Cursor>)

  datatype Op =
    | CreateStream(name: string, config: StreamConfig)
    | DeleteStream(name: string)
    | StoreMessage(stream: string, call: StoreCall)
    | CreateConsumer(consumer: ConsumerConfig)
    | DeleteConsumer(stream: string, name: string)
    | NextFor(stream: string, name: string, now: nat)
    | Ack(stream: string, name: string, sequence: nat)

  datatype Reply =
    | Done
    | Sequence(sequence: nat)
    | Message(message: Option<StoredMessage>)
    | Answer(valid: bool)
    | Error(error: StoreError)

  ghost predicate AllCounted(streams: map<string, Log>) {
    forall n :: n in streams ==> Counted(streams[n])
  }

  function AddStream(streams: map<string, Log>, name: string, config: StreamConfig): (map<string, Log>, Reply) {
    if name in streams then (streams, Error(StreamAlreadyExists(name)))
    else (streams[name := NewLog(config)], Done)
  }

  /** The stream a message goes to: an absent one is made with the default configuration. */
  function Target(streams: map<string, Log>, name: string): Log {
    if name in streams then streams[name] else NewLog(DEFAULT_CONFIG)
  }

  function ReadMessage(streams: map<string, Log>, name: string, sequence: nat): Result<StoredMessage, StoreError> {
    if name !in streams then Failure(StreamNotFound(name))
    else
      match Read(streams[name], sequence)
      case Some(m) => Success(m)
      case None => Failure(InvalidOffset(sequence, streams[name].lastSeq))
  }

  /** Read the message at the cursor and record its delivery. */
  function Fetch(s: StoreState, stream: string, key: string, now: nat): (StoreState, Reply)
    requires key in s.consumers
  {
    var c := s.consumers[key];
    match ReadMessage(s.streams, stream, c.next)
    case Success(m) => (s.(consumers := s.consumers[key := RecordDelivery(c, c.next, now)]), Message(Some(m)))
    case Failure(_) => (s, Message(None))
  }

  function NextForConsumer(s: StoreState, stream: string, name: string, now: nat): (StoreState, Reply) {
    var key := Key(stream, name);
    if key !in s.consumers then (s, Error(StreamNotFound("consumer " + name)))
    else if Backpressured(s.consumers[key]) then (s, Message(None))
    else Fetch(s, stream, key, now)
  }

  function Step(s: StoreState, op: Op): (StoreState, Reply)
    requires AllCounted(s.streams)
  {
    match op
    case CreateStream(name, config) =>
      var (streams, reply) := AddStream(s.streams, name, config);
      (s.(streams := streams), reply)
    case DeleteStream(name) => (s.(streams := s.streams - {name}), Done)
    case StoreMessage(stream, call) =>
      var log := Target(s.streams, stream);
      (s.(streams := s.streams[stream := Store(log, call)]), Sequence(log.lastSeq + 1))
    case CreateConsumer(config) =>
      if config.stream !in s.streams then (s, Error(StreamNotFound(config.stream)))
      else
        var key := Key(config.stream, config.durableName);
        if key in s.consumers then
          (s, Error(ConsumerAlreadyExists("consumer " + config.durableName + " on stream " + config.stream)))
        else (s.(consumers := s.consumers[key := NewCursor(config, s.streams[config.stream].lastSeq)]), Done)
    case DeleteConsumer(stream, name) => (s.(consumers := s.consumers - {Key(stream, name)}), Done)
    case NextFor(stream, name, now) => NextForConsumer(s, stream, name, now)
    case Ack(stream, name, sequence) =>
      var key := Key(stream, name);
      if key !in s.consumers then (s, Answer(false))
      else
        var (c, valid) := Acknowledge(s.consumers[key], sequence);
        (s.(consumers := s.consumers[key := c]), Answer(valid))
  }

  /**
   After one consumer is created, another whose stream exists and whose name was free is refused if and
   only if the two are the same or their names straddle a colon.
   */
  lemma {:induction false} CreateRefusedIff(s: StoreState, one: ConsumerConfig, other: ConsumerConfig)
    requires AllCounted(s.streams) && Step(s, CreateConsumer(one)).1 == Done
    requires other.stream in s.streams && Key(other.stream, other.durableName) !in s.consumers
    ensures Step(Step(s, CreateConsumer(one)).0, CreateConsumer(other)).1.Error? <==>
            || (one.stream == other.stream && one.durableName == other.durableName)
            || Straddles(one.stream, one.durableName, other.stream, other.durableName)
            || Straddles(other.stream, other.durableName, one.stream, one.durableName)
  {
    KeysCollideIff(one.stream, one.durableName, other.stream, other.durableName);
  }

  /**
   With a colon in a stream name two consumers of different streams share one key, so creating one
   refuses the other.
   */
  lemma {:induction false} ColonsCollide(s: StoreState, one: ConsumerConfig, other: ConsumerConfig, part: string)
    requires AllCounted(s.streams) && other.stream in s.streams && one.stream == other.stream + ":" + part
    requires other.durableName == part + ":" + one.durableName
    requires Step(s, CreateConsumer(one)).1 == Done
    ensures one.stream != other.stream
    ensures Step(Step(s, CreateConsumer(one)).0, CreateConsumer(other)).1.Error?
  {
    assert |one.stream| > |other.stream|;
    assert Straddles(other.stream, other.durableName, one.stream, one.durableName);
    KeysCollideIff(one.stream, one.durableName, other.stream, other.durableName);
  }
}
