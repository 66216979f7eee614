/**
 What a consumer can still be handed. Requests and acknowledgements alone can get it exactly the stored
 messages from its cursor on, one after the other, as long as retention has not passed the cursor; and any
 run at all can get it another message exactly as long as that.
 */
module ConsumerService {
  import opened Wrappers
  import opened Streams
  import opened Consumers
  import opened ConsumerRuns

  // Requests and acknowledgements

  /** Nothing but requests and acknowledgements. */
  ghost predicate Asking(ops: seq<Op>) {
    LegalRun(ops) && forall i :: 0 <= i < |ops| ==> ops[i].NextFor? || ops[i].Ack?
  }

  /** What consumer `p` has been handed. */
  ghost function Handed(l: Ledger, p: Name): seq<StoredMessage> {
    if p in l.accounts then l.accounts[p].handed else []
  }

  ghost function Next(l: Ledger, p: Name): nat {
    if Key(p.0, p.1) in l.state.consumers then l.state.consumers[Key(p.0, p.1)].next else 0
  }

  /** What the ledger says of consumer `p`. */
  lemma {:induction false} AccountSays(l: Ledger, p: Name)
    requires Inv(l) && p in l.accounts
    ensures p.0 in l.state.streams && Key(p.0, p.1) in l.state.consumers && ':' !in p.0
    ensures Next(l, p) == l.accounts[p].start + |Handed(l, p)|
    ensures Handed(l, p) != [] ==>
              1 <= l.accounts[p].start && Next(l, p) - 1 <= |Stored(l, p.0)|
              && Handed(l, p) == Stored(l, p.0)[l.accounts[p].start - 1..Next(l, p) - 1]
    ensures Lapped(l, p) <==> Next(l, p) < l.state.streams[p.0].firstSeq
    ensures 1 <= l.state.streams[p.0].firstSeq <= |Stored(l, p.0)| + 1
  {
    assert Holds(l, AConsumer(p));
    assert Holds(l, AStream(p.0));
  }

  lemma {:induction false} AskKeeps(l: Ledger, p: Name, op: Op)
    requires Inv(l) && AllCounted(l.state.streams) && Legal(op) && (op.NextFor? || op.Ack?) && p in l.accounts
    ensures var r := Perform(l, op);
            && r.state.streams == l.state.streams && r.stored == l.stored
            && p in r.accounts && r.accounts[p].start == l.accounts[p].start
            && |Handed(l, p)| <= |Handed(r, p)|
  {
  }

  /** However often it asks, the store stays, and what it was handed stays. */
  lemma {:induction false} AskingKeeps(l: Ledger, p: Name, ops: seq<Op>)
    requires Inv(l) && AllCounted(l.state.streams) && Asking(ops) && p in l.accounts
    ensures var r := RunFrom(l, ops);
            && Inv(r) && r.state.streams == l.state.streams && r.stored == l.stored
            && p in r.accounts && r.accounts[p].start == l.accounts[p].start
            && |Handed(l, p)| <= |Handed(r, p)|
  {
    hide Inv;
    hide AllCounted;
    hide Perform;
    RunKeepsInv(l, ops);
    if ops != [] {
      var n := |ops| - 1;
      assert Asking(ops[..n]);
      AskingKeeps(l, p, ops[..n]);
      AskKeeps(RunFrom(l, ops[..n]), p, ops[n]);
    }
  }

  lemma {:induction false} RunAppend(l: Ledger, ops: seq<Op>, op: Op)
    requires AllCounted(l.state.streams)
    ensures RunFrom(l, ops + [op]) == Perform(RunFrom(l, ops), op)
  {
    hide Perform;
    assert (ops + [op])[..|ops|] == ops;
  }

  /** A consumer held back has something to acknowledge, and is not held back afterwards. */
  lemma {:induction false} Relieve(l: Ledger, p: Name) returns (ops: seq<Op>)
    requires Inv(l) && AllCounted(l.state.streams) && p in l.accounts
    ensures Asking(ops) && Handed(RunFrom(l, ops), p) == Handed(l, p)
    ensures Key(p.0, p.1) in RunFrom(l, ops).state.consumers
    ensures !Backpressured(RunFrom(l, ops).state.consumers[Key(p.0, p.1)])
  {
    assert Holds(l, AConsumer(p));
    var c := l.state.consumers[Key(p.0, p.1)];
    ops := [];
    if Backpressured(c) {
      assert |c.pending| > 0;
      var i :| i in c.pending;
      ops := [Ack(p.0, p.1, i)];
      assert ops == [] + [Ack(p.0, p.1, i)];
      RunAppend(l, [], Ack(p.0, p.1, i));
      MapShrinks(c.pending, i);
    }
  }

  lemma {:induction false} AskingConcat(ops: seq<Op>, more: seq<Op>)
    requires Asking(ops) && Asking(more)
    ensures Asking(ops + more)
  {
  }

  /** While the stream has the message at its cursor, a consumer can get it handed by asking. */
  lemma {:induction false} HandOne(l: Ledger, p: Name) returns (ops: seq<Op>)
    requires Inv(l) && AllCounted(l.state.streams) && p in l.accounts
    requires !Lapped(l, p) && Next(l, p) <= |Stored(l, p.0)|
    ensures Asking(ops) && |Handed(RunFrom(l, ops), p)| == |Handed(l, p)| + 1
  {
    hide Inv;
    hide AllCounted;
    hide RunFrom;
    hide Perform;
    hide Backpressured;
    AccountSays(l, p);
    var acks := Relieve(l, p);
    var mid := RunFrom(l, acks);
    AskingKeeps(l, p, acks);
    AccountSays(mid, p);
    HandNext(mid, p);
    RunAppend(l, acks, NextFor(p.0, p.1, 0));
    ops := acks + [NextFor(p.0, p.1, 0)];
    AskingConcat(acks, [NextFor(p.0, p.1, 0)]);
  }

  lemma {:induction false} HandNext(l: Ledger, p: Name)
    requires Inv(l) && AllCounted(l.state.streams) && p in l.accounts && Key(p.0, p.1) in l.state.consumers
    requires !Backpressured(l.state.consumers[Key(p.0, p.1)])
    requires !Lapped(l, p) && Next(l, p) <= |Stored(l, p.0)|
    ensures |Handed(Perform(l, NextFor(p.0, p.1, 0)), p)| == |Handed(l, p)| + 1
  {
    AccountSays(l, p);
    NextDelivers(l, p, 0);
  }

  lemma {:induction false} RunConcat(l: Ledger, ops: seq<Op>, more: seq<Op>)
    requires AllCounted(l.state.streams)
    ensures RunFrom(l, ops + more) == RunFrom(RunFrom(l, ops), more)
  {
    hide Perform;
    if more == [] {
      assert ops + more == ops;
    } else {
      RunConcat(l, ops, more[..|more| - 1]);
      assert (ops + more)[..|ops + more| - 1] == ops + more[..|more| - 1];
    }
  }

  /** And so on, message by message. */
  lemma {:induction false} HandMany(l: Ledger, p: Name, n: nat) returns (ops: seq<Op>)
    requires Inv(l) && AllCounted(l.state.streams) && p in l.accounts
    requires n == 0 || (!Lapped(l, p) && Next(l, p) + n <= |Stored(l, p.0)| + 1)
    ensures Asking(ops) && |Handed(RunFrom(l, ops), p)| == |Handed(l, p)| + n
  {
    hide Inv;
    hide AllCounted;
    hide Perform;
    if n == 0 {
      ops := [];
    } else {
      hide RunFrom;
      ops := HandMany(l, p, n - 1);
      var mid := RunFrom(l, ops);
      AskingKeeps(l, p, ops);
      AccountSays(l, p);
      AccountSays(mid, p);
      var more := HandOne(mid, p);
      RunConcat(l, ops, more);
      AskingConcat(ops, more);
      ops := ops + more;
    }
  }

  /** The messages `s` follow at the consumer's cursor, and the stream has not lost them. */
  ghost predicate Ahead(l: Ledger, p: Name, s: seq<StoredMessage>) {
    s != [] ==>
      && !Lapped(l, p) && 1 <= Next(l, p) && Next(l, p) - 1 + |s| <= |Stored(l, p.0)|
      && s == Stored(l, p.0)[Next(l, p) - 1..Next(l, p) - 1 + |s|]
  }

  /** Some requests and acknowledgements get consumer `p` handed exactly `s` next. */
  ghost predicate CanGet(l: Ledger, p: Name, s: seq<StoredMessage>)
    requires AllCounted(l.state.streams)
  {
    exists ops :: Asking(ops) && Handed(RunFrom(l, ops), p) == Handed(l, p) + s
  }

  lemma {:induction false} AskingGets(l: Ledger, p: Name, ops: seq<Op>)
    requires Inv(l) && AllCounted(l.state.streams) && p in l.accounts && Asking(ops)
    ensures |Handed(l, p)| <= |Handed(RunFrom(l, ops), p)|
    ensures var s := Handed(RunFrom(l, ops), p)[|Handed(l, p)|..];
            Handed(RunFrom(l, ops), p) == Handed(l, p) + s && Ahead(l, p, s)
  {
    hide *;
    var r := RunFrom(l, ops);
    AskingKeeps(l, p, ops);
    AskingSpares(ops, p);
    if Lapped(l, p) {
      LappedForever(l, p, ops);
      SameHanded(l, r, p);
    }
    Continues(l, r, p);
  }

  lemma {:induction false} SameHanded(l: Ledger, r: Ledger, p: Name)
    requires p in l.accounts && p in r.accounts && l.accounts[p].handed == r.accounts[p].handed
    ensures Handed(l, p) == Handed(r, p)
  {
  }

  lemma {:induction false} Continues(l: Ledger, r: Ledger, p: Name)
    requires Inv(l) && Inv(r) && p in l.accounts && p in r.accounts && r.stored == l.stored
    requires r.accounts[p].start == l.accounts[p].start && |Handed(l, p)| <= |Handed(r, p)|
    requires Lapped(l, p) ==> Handed(l, p) == Handed(r, p)
    ensures var s := Handed(r, p)[|Handed(l, p)|..];
            Handed(r, p) == Handed(l, p) + s && Ahead(l, p, s)
  {
    hide Inv;
    hide Handed;
    hide Lapped;
    hide Next;
    AccountSays(l, p);
    AccountSays(r, p);
    Grown(Stored(l, p.0), l.accounts[p].start, Handed(l, p), Handed(r, p));
  }

  /** Of two stretches of a history from one start, the longer continues the shorter. */
  lemma {:induction false} Grown(h: seq<StoredMessage>, start: nat, a: seq<StoredMessage>, b: seq<StoredMessage>)
    requires |a| <= |b|
    requires a != [] ==> 1 <= start && start - 1 + |a| <= |h| && a == h[start - 1..start - 1 + |a|]
    requires b != [] ==> 1 <= start && start - 1 + |b| <= |h| && b == h[start - 1..start - 1 + |b|]
    ensures b == a + b[|a|..]
    ensures |a| < |b| ==> b[|a|..] == h[start - 1 + |a|..start - 1 + |b|]
  {
  }

  /** Asking gets a consumer exactly the messages ahead of it, any number of them, and nothing else. */
  lemma {:induction false} CanGetIff(l: Ledger, p: Name, s: seq<StoredMessage>)
    requires Inv(l) && AllCounted(l.state.streams) && p in l.accounts
    ensures CanGet(l, p, s) <==> Ahead(l, p, s)
  {
    hide Inv;
    hide AllCounted;
    hide RunFrom;
    if CanGet(l, p, s) {
      var ops :| Asking(ops) && Handed(RunFrom(l, ops), p) == Handed(l, p) + s;
      AskingGets(l, p, ops);
      assert (Handed(l, p) + s)[|Handed(l, p)|..] == s;
    }
    if Ahead(l, p, s) {
      var ops := HandMany(l, p, |s|);
      AskingGets(l, p, ops);
    }
  }

  // Any run at all

  /** Some legal run that does not delete consumer `p` hands it another message. */
  ghost predicate CanBeServed(l: Ledger, p: Name)
    requires AllCounted(l.state.streams)
  {
    exists ops :: LegalRun(ops) && DeleteConsumer(p.0, p.1) !in ops
                  && |Handed(RunFrom(l, ops), p)| > |Handed(l, p)|
  }

  /** A store that an age limit does not touch. */
  function Gentle(config: StreamConfig): StoreCall {
    StoreCall("", None, [], None, 0, config.maxAgeSecs * 1000)
  }

  lemma {:induction false} RetainsSome(config: StreamConfig, s: seq<StoredMessage>)
    requires s != []
    ensures Retain(config, config.maxAgeSecs * 1000, s) != []
  {
    if config.maxMsgs > 0 {
      KeepsExcess(s, config.maxMsgs);
    }
    KeepsHeavy(CountStage(config, s), config.maxBytes);
  }

  lemma {:induction false} KeepsExcess(s: seq<StoredMessage>, max: nat)
    requires s != [] && max > 0
    ensures DropExcess(s, max) != []
  {
    if |s| > max {
      KeepsExcess(s[1..], max);
    }
  }

  lemma {:induction false} KeepsHeavy(s: seq<StoredMessage>, max: nat)
    requires s != []
    ensures DropHeavy(s, max) != []
  {
    if Weight(s) > max && |s| > 1 {
      KeepsHeavy(s[1..], max);
    }
  }

  lemma {:induction false} GentleKeeps(v: Log)
    requires Counted(v)
    ensures var r := Store(v, Gentle(v.config)); r.lastSeq == v.lastSeq + 1 && r.firstSeq <= r.lastSeq
  {
    hide Retain;
    RetainsSome(v.config, v.kept + [Stamped(v.lastSeq + 1, Gentle(v.config))]);
  }

  lemma {:induction false} StreamSays(l: Ledger, stream: string)
    requires Inv(l) && stream in l.state.streams
    ensures Counted(l.state.streams[stream]) && l.state.streams[stream].lastSeq == |Stored(l, stream)|
  {
    assert Holds(l, AStream(stream));
  }

  /** Such a store leaves the consumers alone, and its message is retained. */
  lemma {:induction false} GentleStore(l: Ledger, p: Name) returns (op: Op)
    requires Inv(l) && AllCounted(l.state.streams) && p.0 in l.state.streams
    ensures Legal(op) && op.StoreMessage?
    ensures var r := Perform(l, op);
            && r.accounts == l.accounts && r.state.consumers == l.state.consumers && p.0 in r.state.streams
            && |Stored(r, p.0)| == |Stored(l, p.0)| + 1 && r.state.streams[p.0].firstSeq <= |Stored(r, p.0)|
  {
    hide Inv;
    hide AllCounted;
    hide Counted;
    hide Store;
    hide Gentle;
    StreamSays(l, p.0);
    var v := l.state.streams[p.0];
    op := StoreMessage(p.0, Gentle(v.config));
    GentleKeeps(v);
  }

  lemma {:induction false} StoreMore(l: Ledger, p: Name, n: nat) returns (ops: seq<Op>)
    requires Inv(l) && AllCounted(l.state.streams) && p.0 in l.state.streams
    ensures LegalRun(ops) && DeleteConsumer(p.0, p.1) !in ops
    ensures var r := RunFrom(l, ops);
            && Inv(r) && r.accounts == l.accounts && r.state.consumers == l.state.consumers && p.0 in r.state.streams
            && |Stored(r, p.0)| == |Stored(l, p.0)| + n
            && (n > 0 ==> r.state.streams[p.0].firstSeq <= |Stored(r, p.0)|)
  {
    hide Inv;
    hide AllCounted;
    hide Perform;
    hide Stored;
    if n == 0 {
      ops := [];
    } else {
      hide RunFrom;
      ops := StoreMore(l, p, n - 1);
      var mid := RunFrom(l, ops);
      var op := GentleStore(mid, p);
      RunAppend(l, ops, op);
      ops := ops + [op];
      RunKeepsInv(l, ops);
    }
  }

  /** Unless retention has passed its cursor, a consumer can get another message, once there is one. */
  lemma {:induction false} ServeOne(l: Ledger, p: Name)
    requires Inv(l) && AllCounted(l.state.streams) && p in l.accounts && !Lapped(l, p)
    ensures CanBeServed(l, p)
  {
    hide Inv;
    hide AllCounted;
    hide RunFrom;
    hide Stored;
    AccountSays(l, p);
    var have := |Stored(l, p.0)|;
    var stores := StoreMore(l, p, if Next(l, p) <= have then 0 else Next(l, p) - have);
    if Next(l, p) <= have {
      var ops := HandOne(l, p);
      AskingSpares(ops, p);
    } else {
      var mid := RunFrom(l, stores);
      AccountSays(mid, p);
      var more := HandOne(mid, p);
      RunConcat(l, stores, more);
      AskingSpares(more, p);
      assert LegalRun(stores + more) && DeleteConsumer(p.0, p.1) !in stores + more;
    }
  }

  lemma {:induction false} AskingSpares(ops: seq<Op>, p: Name)
    requires Asking(ops)
    ensures LegalRun(ops) && DeleteConsumer(p.0, p.1) !in ops
  {
  }

  /** A consumer can ever be handed another message if and only if retention has not passed its cursor. */
  lemma {:induction false} ServableIff(l: Ledger, p: Name)
    requires Inv(l) && AllCounted(l.state.streams) && p in l.accounts
    ensures CanBeServed(l, p) <==> !Lapped(l, p)
  {
    hide Inv;
    hide AllCounted;
    hide RunFrom;
    if Lapped(l, p) {
      forall ops | LegalRun(ops) && DeleteConsumer(p.0, p.1) !in ops
        ensures Handed(RunFrom(l, ops), p) == Handed(l, p)
      {
        LappedForever(l, p, ops);
      }
    } else {
      ServeOne(l, p);
    }
  }

  // Where delivery starts

  /** A consumer that can be created: its stream exists, without a colon, and its name is free. */
  ghost predicate Creatable(l: Ledger, config: ConsumerConfig) {
    && ':' !in config.stream && config.stream in l.state.streams
    && (config.stream, config.durableName) !in l.accounts
  }

  function NameOf(config: ConsumerConfig): Name {
    (config.stream, config.durableName)
  }

  lemma {:induction false} Created(l: Ledger, config: ConsumerConfig)
    requires Inv(l) && AllCounted(l.state.streams) && Creatable(l, config)
    ensures var r, p := Perform(l, CreateConsumer(config)), NameOf(config);
            && Inv(r) && p in r.accounts && Handed(r, p) == []
            && Next(r, p) == r.accounts[p].start == StartSeq(config.deliverPolicy, |Stored(l, config.stream)|)
            && r.state.streams == l.state.streams && r.stored == l.stored
            && Key(p.0, p.1) in r.state.consumers && !Backpressured(r.state.consumers[Key(p.0, p.1)])
  {
    NoAccountNoConsumer(l, NameOf(config));
    assert Holds(l, AStream(config.stream));
    PerformKeepsInv(l, CreateConsumer(config));
  }

  /**
   A new consumer can ever be handed a message if and only if the stream still has, or has yet to get, the
   message it is to start with: always for new messages, for all of them while the first one is retained, for
   the last one while that is retained or there is none, and for a given number while that is retained or yet
   to come.
   */
  lemma {:induction false} StartIsServedIff(l: Ledger, config: ConsumerConfig)
    requires Inv(l) && AllCounted(l.state.streams) && Creatable(l, config)
    ensures CanBeServed(Perform(l, CreateConsumer(config)), NameOf(config)) <==>
            var first, h := l.state.streams[config.stream].firstSeq, Stored(l, config.stream);
            match config.deliverPolicy
            case All => first == 1
            case Last => h == [] || first <= |h|
            case New => true
            case ByStartSequence(k) => first <= k
  {
    hide Inv;
    hide AllCounted;
    hide Perform;
    Created(l, config);
    var r := Perform(l, CreateConsumer(config));
    AccountSays(r, NameOf(config));
    ServableIff(r, NameOf(config));
  }

  /** Its first request is answered with that message if the stream has it, and with nothing otherwise. */
  lemma {:induction false} FirstAnswer(l: Ledger, config: ConsumerConfig, now: nat)
    requires Inv(l) && AllCounted(l.state.streams) && Creatable(l, config)
    ensures var first, h := l.state.streams[config.stream].firstSeq, Stored(l, config.stream);
            Step(Perform(l, CreateConsumer(config)).state, NextFor(config.stream, config.durableName, now)).1 ==
            Message(match config.deliverPolicy
                    case All => if h != [] && first == 1 then Some(h[0]) else None
                    case Last => if h != [] && first <= |h| then Some(h[|h| - 1]) else None
                    case New => None
                    case ByStartSequence(k) => if 1 <= k && first <= k <= |h| then Some(h[k - 1]) else None)
  {
    hide Inv;
    hide Perform;
    hide Backpressured;
    hide NextForConsumer;
    Created(l, config);
    AccountSays(Perform(l, CreateConsumer(config)), NameOf(config));
    NextDelivers(Perform(l, CreateConsumer(config)), NameOf(config), now);
  }

  /** So `DeliverPolicy::All` starts with the first message ever stored exactly while that is retained. */
  lemma {:induction false} AllStartsAtFirstIff(l: Ledger, config: ConsumerConfig, now: nat)
    requires Inv(l) && AllCounted(l.state.streams) && Creatable(l, config)
    requires config.deliverPolicy == All && Stored(l, config.stream) != []
    ensures Step(Perform(l, CreateConsumer(config)).state, NextFor(config.stream, config.durableName, now)).1 ==
            Message(if l.state.streams[config.stream].firstSeq == 1 then Some(Stored(l, config.stream)[0]) else None)
    ensures CanBeServed(Perform(l, CreateConsumer(config)), NameOf(config)) <==>
            l.state.streams[config.stream].firstSeq == 1
  {
    hide Inv;
    hide Perform;
    hide Step;
    Created(l, config);
    AccountSays(Perform(l, CreateConsumer(config)), NameOf(config));
    FirstAnswer(l, config, now);
    StartIsServedIff(l, config);
  }

  /** Consumer `p` was handed no more than the one message it started with. */
  ghost predicate OnlyOne(l: Ledger, p: Name) {
    |Handed(l, p)| <= 1
  }

  /**
   `DeliverPolicy::Last` starts with the last message of the stream. By asking, the consumer gets no other
   if and only if nothing has been stored since, or retention has passed its cursor.
   */
  lemma {:induction false} LastIsOnlyIff(ops: seq<Op>, p: Name)
    requires LegalRun(ops) && p in RunFrom(EMPTY, ops).accounts
    requires 1 <= RunFrom(EMPTY, ops).accounts[p].start <= |Stored(RunFrom(EMPTY, ops), p.0)|
    ensures var l := RunFrom(EMPTY, ops);
            (forall more :: Asking(more) ==> OnlyOne(RunFrom(l, more), p)) <==>
            OnlyOne(l, p) && (Lapped(l, p) || |Stored(l, p.0)| == l.accounts[p].start)
  {
    hide Inv;
    hide RunFrom;
    hide Stored;
    var l := RunFrom(EMPTY, ops);
    EmptyInv();
    RunKeepsInv(EMPTY, ops);
    AccountSays(l, p);
    if OnlyOne(l, p) && (Lapped(l, p) || |Stored(l, p.0)| == l.accounts[p].start) {
      forall more | Asking(more) ensures OnlyOne(RunFrom(l, more), p) {
        AskingGets(l, p, more);
      }
    } else if OnlyOne(l, p) {
      var more := HandMany(l, p, 2 - |Handed(l, p)|);
      assert !OnlyOne(RunFrom(l, more), p);
    } else {
      NothingAsked(l);
    }
  }

  lemma {:induction false} NothingAsked(l: Ledger)
    requires AllCounted(l.state.streams)
    ensures Asking([]) && RunFrom(l, []) == l
  {
  }

  // Acknowledging nothing

  /**
   A consumer that acknowledges nothing, as `AckPolicy::None` says it need not, is handed the message at its
   cursor if and only if it has no bound on unacknowledged messages or was handed fewer than the bound.
   */
  lemma {:induction false} NeverAckingIsServedIff(ops: seq<Op>, p: Name, now: nat)
    requires LegalRun(ops) && p in RunFrom(EMPTY, ops).accounts && RunFrom(EMPTY, ops).accounts[p].acked == {}
    requires !Lapped(RunFrom(EMPTY, ops), p) && Next(RunFrom(EMPTY, ops), p) <= |Stored(RunFrom(EMPTY, ops), p.0)|
    ensures var l := RunFrom(EMPTY, ops);
            && Key(p.0, p.1) in l.state.consumers && 1 <= Next(l, p)
            && var bound := l.state.consumers[Key(p.0, p.1)].config.maxAckPending;
               Step(l.state, NextFor(p.0, p.1, now)).1 ==
               Message(if bound == 0 || |Handed(l, p)| < bound then Some(Stored(l, p.0)[Next(l, p) - 1]) else None)
  {
    hide Inv, RunFrom, Stored, NextForConsumer, Due, AccountOk;
    var l := RunFrom(EMPTY, ops);
    EmptyInv();
    RunKeepsInv(EMPTY, ops);
    CountersAreExact(ops, p);
    DueUnacked(l, p);
    NextDelivers(l, p, now);
  }

  lemma {:induction false} DueUnacked(l: Ledger, p: Name)
    requires Inv(l) && p in l.accounts && l.accounts[p].acked == {} && !Lapped(l, p) && Next(l, p) <= |Stored(l, p.0)|
    ensures p.0 in l.state.streams && Key(p.0, p.1) in l.state.consumers && 1 <= Next(l, p)
    ensures var bound := l.state.consumers[Key(p.0, p.1)].config.maxAckPending;
            Due(l, p) == if bound == 0 || |Handed(l, p)| < bound then Some(Stored(l, p.0)[Next(l, p) - 1]) else None
  {
    hide Stored, Stretch, Outstanding;
    AccountSays(l, p);
    assert Holds(l, AConsumer(p));
    CountsAddUp(l.state.consumers[Key(p.0, p.1)], l.accounts[p]);
  }
}
