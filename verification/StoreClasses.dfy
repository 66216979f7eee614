/** The mutable store: streams and consumers held in maps and updated in place. */
module StoreClasses {
  import opened Wrappers
  import opened Streams
  import opened StreamClass
  import opened Consumers
  import opened ConsumerRuns

  /** Two maps that agree everywhere but at one key. */
  lemma {:induction false} Updated<V>(before: map<string, V>, after: map<string, V>, key: string, value: V)
    requires after.Keys == before.Keys + {key}
    requires after[key] == value
    requires forall n :: n in before && n != key ==> after[n] == before[n]
    ensures after == before[key := value]
  {
  }

  lemma {:induction false} Overwritten<V>(m: map<string, V>, key: string, v: V, w: V)
    ensures m[key := v][key := w] == m[key := w]
  {
  }

  class MemoryStore {
    var streams: map<string, Stream>

    constructor ()
      ensures Valid() && View() == map[]
    {
      streams := map[];
    }

    ghost predicate Valid()
      reads this, streams.Values
    {
      && (forall n :: n in streams ==> streams[n].Valid())
      && (forall m, n :: m in streams && n in streams && m != n ==> streams[m] != streams[n])
    }

    ghost function View(): map<string, Log>
      reads this, streams.Values
    {
      map n | n in streams :: streams[n].View()
    }

    method CreateStream(name: string, config: StreamConfig) returns (r: Reply)
      requires Valid()
      modifies this
      ensures Valid() && fresh(streams.Values - old(streams.Values))
      ensures (View(), r) == AddStream(old(View()), name, config)
    {
      if name in streams {
        return Error(StreamAlreadyExists(name));
      }
      var stream := new Stream(config);
      Put(name, stream);
      r := Done;
    }

    method Put(name: string, stream: Stream)
      requires Valid() && stream.Valid() && name !in streams && stream !in streams.Values
      modifies this
      ensures Valid() && streams == old(streams)[name := stream]
      ensures View() == old(View())[name := stream.View()]
    {
      ghost var before := View();
      assert forall n :: n in streams ==> streams[n] in streams.Values;
      streams := streams[name := stream];
      Updated(before, View(), name, stream.View());
    }

    method DeleteStream(name: string)
      requires Valid()
      modifies this
      ensures Valid() && streams.Values <= old(streams.Values)
      ensures View() == old(View()) - {name}
    {
      streams := streams - {name};
    }

    /** Append a message, making the stream with the default configuration when absent. */
    method StoreMessage(name: string, call: StoreCall) returns (sequence: nat)
      requires Valid()
      modifies this, streams.Values
      ensures Valid() && fresh(streams.Values - old(streams.Values))
      ensures View() == old(View())[name := Store(old(Target(View(), name)), call)]
      ensures sequence == old(Target(View(), name)).lastSeq + 1
      ensures name in View() && View()[name].lastSeq == sequence
      ensures var m := Read(View()[name], sequence); m.Some? ==> Carries(m.value, sequence, call)
    {
      StoredReadsBack(Target(View(), name), call);
      Entry(name);
      ghost var before := View();
      sequence := AppendTo(name, call);
      Overwritten(old(View()), name, before[name], Store(before[name], call));
    }

    method Entry(name: string)
      requires Valid()
      modifies this
      ensures Valid() && fresh(streams.Values - old(streams.Values))
      ensures name in streams
      ensures View() == old(View())[name := old(Target(View(), name))]
    {
      if name !in streams {
        var stream := new Stream(DEFAULT_CONFIG);
        Put(name, stream);
      }
    }

    method AppendTo(name: string, call: StoreCall) returns (sequence: nat)
      requires Valid() && name in streams
      modifies streams[name]
      ensures Valid() && View() == old(View())[name := Store(old(View()[name]), call)]
      ensures sequence == old(View()[name]).lastSeq + 1
    {
      ghost var before := View();
      sequence := streams[name].Append(call);
      Updated(before, View(), name, Store(before[name], call));
    }

    method ReadOne(name: string, sequence: nat) returns (r: Result<StoredMessage, StoreError>)
      requires Valid()
      ensures r == ReadMessage(View(), name, sequence)
    {
      if name !in streams {
        return Failure(StreamNotFound(name));
      }
      var m := streams[name].ReadOne(sequence);
      r := if m.Some? then Success(m.value) else Failure(InvalidOffset(sequence, streams[name].lastSeq));
    }
  }

  class Consumer {
    const config: ConsumerConfig
    var next: nat
    var pendingCount: nat
    var pending: map<nat, nat>
    var delivered: nat
    var acked: nat

    constructor (config: ConsumerConfig, streamLastSeq: nat)
      ensures View() == NewCursor(config, streamLastSeq)
    {
      this.config := config;
      next := StartSeq(config.deliverPolicy, streamLastSeq);
      pendingCount, pending, delivered, acked := 0, map[], 0, 0;
    }

    ghost function View(): Cursor
      reads this
    {
      Cursor(config, next, pendingCount, pending, delivered, acked)
    }

    /** Handing out the message at the cursor keeps the counters and the pending map exact. */
    method Record(sequence: nat, now: nat)
      modifies this
      ensures View() == RecordDelivery(old(View()), sequence, now)
      ensures forall a, m ::
                Balanced(old(View()), a) && !Backpressured(old(View())) && sequence == old(next) ==>
                  Balanced(View(), WithHanded(a, m))
    {
      forall a, m | Balanced(View(), a) && !Backpressured(View()) && sequence == next
        ensures Balanced(RecordDelivery(View(), sequence, now), WithHanded(a, m))
      {
        RecordBalances(View(), a, m, now);
      }
      pending := pending[sequence := now];
      pendingCount := pendingCount + 1;
      delivered := delivered + 1;
      next := sequence + 1;
    }

    /** Valid is an acknowledgement of a message handed out and not yet acknowledged; the counters stay exact. */
    method Ack(sequence: nat) returns (valid: bool)
      modifies this
      ensures (View(), valid) == Acknowledge(old(View()), sequence)
      ensures forall a :: Balanced(old(View()), a) ==>
                && (valid <==> a.start <= sequence < a.start + |a.handed| && sequence !in a.acked)
                && Balanced(View(), if valid then WithAcked(a, sequence) else a)
    {
      forall a | Balanced(View(), a)
        ensures sequence in pending <==> a.start <= sequence < a.start + |a.handed| && sequence !in a.acked
        ensures sequence in pending ==> Balanced(Acknowledge(View(), sequence).0, WithAcked(a, sequence))
      {
        if sequence in pending {
          AckBalances(View(), a, sequence);
        }
      }
      valid := sequence in pending;
      if valid {
        pending := pending - {sequence};
        pendingCount := |pending|;
        acked := acked + 1;
      }
    }

    method IsBackpressured() returns (b: bool)
      ensures b == Backpressured(View())
    {
      b := config.maxAckPending > 0 && pendingCount >= config.maxAckPending;
    }
  }

  class ConsumerManager {
    const store: MemoryStore
    var consumers: map<string, Consumer>

    constructor (store: MemoryStore)
      ensures this.store == store && consumers == map[]
    {
      this.store := store;
      consumers := map[];
    }

    ghost predicate Valid()
      reads this, consumers.Values
    {
      forall j, k :: j in consumers && k in consumers && j != k ==> consumers[j] != consumers[k]
    }

    ghost function Cursors(): map<string, Cursor>
      reads this, consumers.Values
    {
      map k | k in consumers :: consumers[k].View()
    }

    ghost function View(): StoreState
      reads this, consumers.Values, store, store.streams.Values
    {
      StoreState(store.View(), Cursors())
    }

    method Put(key: string, consumer: Consumer)
      requires Valid() && key !in consumers && consumer !in consumers.Values
      modifies this
      ensures Valid() && consumers == old(consumers)[key := consumer]
      ensures Cursors() == old(Cursors())[key := consumer.View()]
    {
      ghost var before := Cursors();
      assert forall n :: n in consumers ==> consumers[n] in consumers.Values;
      consumers := consumers[key := consumer];
      Updated(before, Cursors(), key, consumer.View());
    }

    method Create(config: ConsumerConfig) returns (r: Reply)
      requires Valid() && store.Valid()
      modifies this
      ensures Valid() && fresh(consumers.Values - old(consumers.Values))
      ensures (View(), r) == Step(old(View()), Op.CreateConsumer(config))
      ensures r == Done ==>
                var key, n := Key(config.stream, config.durableName), old(View()).streams[config.stream].lastSeq;
                key in View().consumers && match config.deliverPolicy
                case All => View().consumers[key].next == 1
                case Last => View().consumers[key].next == if n == 0 then 1 else n
                case New => View().consumers[key].next == n + 1
                case ByStartSequence(k) => View().consumers[key].next == k
    {
      hide Counted;
      hide Store;
      if config.stream !in store.streams {
        return Error(StreamNotFound(config.stream));
      }
      var key := Key(config.stream, config.durableName);
      if key in consumers {
        return Error(ConsumerAlreadyExists("consumer " + config.durableName + " on stream " + config.stream));
      }
      var consumer := new Consumer(config, store.streams[config.stream].lastSeq);
      Put(key, consumer);
      r := Done;
    }

    /** Deleting removes one consumer, or nothing; asking for it afterwards is an error. */
    method Delete(stream: string, name: string) returns (r: Reply)
      requires Valid() && store.Valid()
      modifies this
      ensures Valid() && consumers.Values <= old(consumers.Values)
      ensures (View(), r) == Step(old(View()), Op.DeleteConsumer(stream, name))
      ensures forall now :: NextForConsumer(View(), stream, name, now).1.Error?
    {
      hide Counted;
      ghost var before := Cursors();
      consumers := consumers - {Key(stream, name)};
      assert Cursors() == before - {Key(stream, name)};
      r := Done;
    }

    method RecordAt(key: string, sequence: nat, now: nat)
      requires Valid() && key in consumers
      modifies consumers[key]
      ensures Valid()
      ensures Cursors() == old(Cursors())[key := RecordDelivery(old(Cursors()[key]), sequence, now)]
    {
      ghost var before := Cursors();
      consumers[key].Record(sequence, now);
      Updated(before, Cursors(), key, RecordDelivery(before[key], sequence, now));
    }

    method AckAt(key: string, sequence: nat) returns (valid: bool)
      requires Valid() && key in consumers
      modifies consumers[key]
      ensures Valid()
      ensures valid == Acknowledge(old(Cursors()[key]), sequence).1
      ensures Cursors() == old(Cursors())[key := Acknowledge(old(Cursors()[key]), sequence).0]
    {
      ghost var before := Cursors();
      valid := consumers[key].Ack(sequence);
      Updated(before, Cursors(), key, Acknowledge(before[key], sequence).0);
    }

    /** The next message for a consumer, its delivery recorded. */
    method Next(stream: string, name: string, now: nat) returns (r: Reply)
      requires Valid() && store.Valid()
      modifies consumers.Values
      ensures Valid()
      ensures (View(), r) == NextForConsumer(old(View()), stream, name, now)
    {
      var key := Key(stream, name);
      if key !in consumers {
        return Error(StreamNotFound("consumer " + name));
      }
      var held := consumers[key].IsBackpressured();
      if held {
        return Message(None);
      }
      r := FetchAt(stream, key, now);
    }

    method FetchAt(stream: string, key: string, now: nat) returns (r: Reply)
      requires Valid() && store.Valid() && key in consumers
      modifies consumers.Values
      ensures Valid()
      ensures (View(), r) == Fetch(old(View()), stream, key, now)
    {
      hide Counted;
      hide RecordDelivery;
      var sequence := consumers[key].next;
      var msg := store.ReadOne(stream, sequence);
      if msg.Success? {
        RecordAt(key, sequence, now);
        r := Message(Some(msg.value));
      } else {
        r := Message(None);
      }
    }

    method Acknowledged(stream: string, name: string, sequence: nat) returns (r: Reply)
      requires Valid() && store.Valid()
      modifies consumers.Values
      ensures Valid()
      ensures (View(), r) == Step(old(View()), Op.Ack(stream, name, sequence))
    {
      var key := Key(stream, name);
      if key !in consumers {
        return Answer(false);
      }
      var valid := AckAt(key, sequence);
      r := Answer(valid);
    }
  }
}
