/**
 Runs in which the documented promises to consumers are broken, each a handful of calls: the policy that
 acknowledges everything before, the subject filter, starting with all or with only the last message, and
 the policy that needs no acknowledgements.
 */
module ConsumerExamples {
  import opened Wrappers
  import opened Subjects
  import opened Streams
  import opened Consumers
  import opened ConsumerRuns
  import opened ConsumerService
  import opened ConsumerPolicies

  const POST: StoreCall := StoreCall("b", None, [], None, 0, 0)

  // A store with one stream `s` and at most one consumer `c`

  function Shop(log: Log, h: seq<StoredMessage>, cs: map<string, Cursor>, accounts: map<Name, Account>): (l: Ledger)
    requires Counted(log)
    ensures AllCounted(l.state.streams)
  {
    Ledger(StoreState(map["s" := log], cs), if h == [] then map[] else map["s" := h], accounts)
  }

  /** The shop with the consumer at cursor `c` and account `a`. */
  function Served(log: Log, h: seq<StoredMessage>, c: Cursor, a: Account): (l: Ledger)
    requires Counted(log)
    ensures AllCounted(l.state.streams)
  {
    Shop(log, h, map[Key("s", "c") := c], map[("s", "c") := a])
  }

  lemma {:induction false} Opens(config: StreamConfig)
    ensures Perform(EMPTY, CreateStream("s", config)) == Shop(NewLog(config), [], map[], map[])
  {
  }

  lemma {:induction false} Stores(
    log: Log, h: seq<StoredMessage>, cs: map<string, Cursor>, accounts: map<Name, Account>)
    requires Counted(log)
    ensures Perform(Shop(log, h, cs, accounts), StoreMessage("s", POST))
         == Shop(Store(log, POST), h + [Stamped(|h| + 1, POST)], cs, accounts)
  {
    hide Store;
    var l := Shop(log, h, cs, accounts);
    assert Stored(l, "s") == h;
    assert l.state.streams["s" := Store(log, POST)] == map["s" := Store(log, POST)];
    assert l.stored["s" := h + [Stamped(|h| + 1, POST)]] == map["s" := h + [Stamped(|h| + 1, POST)]];
  }

  lemma {:induction false} Registers(log: Log, h: seq<StoredMessage>, config: ConsumerConfig)
    requires Counted(log) && config.stream == "s" && config.durableName == "c"
    ensures Perform(Shop(log, h, map[], map[]), CreateConsumer(config))
         == Served(log, h, NewCursor(config, log.lastSeq), Account(StartSeq(config.deliverPolicy, |h|), [], {}))
  {
    assert Stored(Shop(log, h, map[], map[]), "s") == h;
  }

  /** What a request is answered. */
  function Answered(log: Log, c: Cursor): Option<StoredMessage> {
    if Backpressured(c) then None else Read(log, c.next)
  }

  lemma {:induction false} Asks(log: Log, h: seq<StoredMessage>, c: Cursor, a: Account)
    requires Counted(log)
    ensures Step(Served(log, h, c, a).state, NextFor("s", "c", 0)).1 == Message(Answered(log, c))
    ensures Perform(Served(log, h, c, a), NextFor("s", "c", 0)) ==
            if Answered(log, c).None? then Served(log, h, c, a)
            else Served(log, h, RecordDelivery(c, c.next, 0), WithHanded(a, Answered(log, c).value))
  {
    hide Backpressured;
    hide Read;
    hide RecordDelivery;
    var s := Served(log, h, c, a).state;
    assert s.consumers[Key("s", "c") := RecordDelivery(c, c.next, 0)] ==
           map[Key("s", "c") := RecordDelivery(c, c.next, 0)];
  }

  lemma {:induction false} Acknowledges(log: Log, h: seq<StoredMessage>, c: Cursor, a: Account, sequence: nat)
    requires Counted(log) && sequence in c.pending
    ensures Perform(Served(log, h, c, a), Ack("s", "c", sequence)) ==
            Served(log, h, Acknowledge(c, sequence).0, WithAcked(a, sequence))
  {
    hide Acknowledge;
    AckAnswer(c, sequence);
    var s := Served(log, h, c, a).state;
    assert s.consumers[Key("s", "c") := Acknowledge(c, sequence).0] == map[Key("s", "c") := Acknowledge(c, sequence).0];
  }

  lemma {:induction false} AckAnswer(c: Cursor, sequence: nat)
    ensures Acknowledge(c, sequence).1 <==> sequence in c.pending
  {
  }

  lemma {:induction false} RunStep(ops: seq<Op>, n: nat)
    requires n < |ops|
    ensures RunFrom(EMPTY, ops[..n + 1]) == Perform(RunFrom(EMPTY, ops[..n]), ops[n])
    ensures RunFrom(EMPTY, ops[..0]) == EMPTY
  {
    hide Perform;
    assert ops[..n + 1][..n] == ops[..n];
  }

  // Two messages in the stream

  const FIRST: StoredMessage := Stamped(1, POST)
  const SECOND: StoredMessage := Stamped(2, POST)

  /** The stream with its first `n` messages, for a stream without limits. */
  function Posted(n: nat): (v: Log)
    requires n <= 2
    ensures Counted(v)
  {
    Holding(DEFAULT_CONFIG, n, [FIRST, SECOND][..n])
  }

  lemma {:induction false} PostedStep(n: nat)
    requires n < 2
    ensures Store(Posted(n), POST) == Posted(n + 1)
    ensures [FIRST, SECOND][..n] + [Stamped(n + 1, POST)] == [FIRST, SECOND][..n + 1]
  {
    assert [FIRST, SECOND][..n] + [Stamped(n + 1, POST)] == [FIRST, SECOND][..n + 1];
  }

  lemma {:induction false} PostedReads(n: nat, sequence: nat)
    requires n <= 2
    ensures Read(Posted(n), sequence) == if 1 <= sequence <= n then Some([FIRST, SECOND][sequence - 1]) else None
  {
  }

  lemma {:induction false} NothingPosted()
    ensures NewLog(DEFAULT_CONFIG) == Posted(0) && [FIRST, SECOND][..0] == [] && [FIRST, SECOND][..1] == [FIRST]
    ensures [FIRST, SECOND][..2] == [FIRST, SECOND]
  {
  }

  // Two posts, then a consumer

  function TwoPosts(config: ConsumerConfig): seq<Op> {
    [CreateStream("s", DEFAULT_CONFIG), StoreMessage("s", POST), StoreMessage("s", POST), CreateConsumer(config)]
  }

  /** The consumer just created, at a start of 1. */
  function Fresh(config: ConsumerConfig): (l: Ledger)
    ensures AllCounted(l.state.streams)
  {
    Served(Posted(2), [FIRST, SECOND], Cursor(config, 1, 0, map[], 0, 0), Account(1, [], {}))
  }

  lemma {:induction false} TwoPostsRun(config: ConsumerConfig)
    requires config.stream == "s" && config.durableName == "c" && config.deliverPolicy == All
    ensures LegalRun(TwoPosts(config)) && RunFrom(EMPTY, TwoPosts(config)) == Fresh(config)
  {
    hide Perform;
    hide Shop;
    hide RunFrom;
    hide Store;
    hide Posted;
    var ops := TwoPosts(config);
    NothingPosted();
    PostedStep(0);
    PostedStep(1);
    PostedLast();
    RunStep(ops, 0);
    Opens(DEFAULT_CONFIG);
    RunStep(ops, 1);
    Stores(Posted(0), [], map[], map[]);
    RunStep(ops, 2);
    Stores(Posted(1), [FIRST], map[], map[]);
    RunStep(ops, 3);
    Registers(Posted(2), [FIRST, SECOND], config);
    assert ops[..4] == ops;
  }

  lemma {:induction false} PostedLast()
    ensures Posted(1).lastSeq == 1 && Posted(2).lastSeq == 2
  {
  }

  /** The consumer after the first message, and after both. */
  function OneOut(config: ConsumerConfig): (l: Ledger)
    ensures AllCounted(l.state.streams)
  {
    Served(Posted(2), [FIRST, SECOND], Cursor(config, 2, 1, map[1 := 0], 1, 0), Account(1, [FIRST], {}))
  }

  function BothOut(config: ConsumerConfig): (l: Ledger)
    ensures AllCounted(l.state.streams)
  {
    Served(Posted(2), [FIRST, SECOND], Cursor(config, 3, 2, map[1 := 0, 2 := 0], 2, 0), Account(1, [FIRST, SECOND], {}))
  }

  lemma {:induction false} FirstOut(config: ConsumerConfig)
    ensures Perform(Fresh(config), NextFor("s", "c", 0)) == OneOut(config)
  {
    hide Perform;
    hide Posted;
    PostedReads(2, 1);
    assert [] + [FIRST] == [FIRST];
    Asks(Posted(2), [FIRST, SECOND], Cursor(config, 1, 0, map[], 0, 0), Account(1, [], {}));
  }

  lemma {:induction false} SecondOut(config: ConsumerConfig)
    requires config.maxAckPending == 0
    ensures Perform(OneOut(config), NextFor("s", "c", 0)) == BothOut(config)
  {
    hide Perform;
    hide Posted;
    PostedReads(2, 2);
    assert [FIRST] + [SECOND] == [FIRST, SECOND];
    assert map[1 := 0][2 := 0] == map[1 := 0, 2 := 0];
    Asks(Posted(2), [FIRST, SECOND], Cursor(config, 2, 1, map[1 := 0], 1, 0), Account(1, [FIRST], {}));
  }

  // Acknowledging everything before, and filtering

  const BOTH: ConsumerConfig := ConsumerConfig("c", "s", Some("a"), All, AckAll, 0)

  /** Two messages on `b`, a consumer that filters for `a` and acknowledges everything before, and an ack of 2. */
  const BROKEN_PROMISES: seq<Op> :=
    TwoPosts(BOTH) + [NextFor("s", "c", 0)] + [NextFor("s", "c", 0)] + [Ack("s", "c", 2)]

  lemma {:induction false} BrokenPromisesRun()
    ensures LegalRun(BROKEN_PROMISES)
    ensures RunFrom(EMPTY, BROKEN_PROMISES) ==
            Served(Posted(2), [FIRST, SECOND], Acknowledge(Cursor(BOTH, 3, 2, map[1 := 0, 2 := 0], 2, 0), 2).0,
                   Account(1, [FIRST, SECOND], {2}))
  {
    hide Perform;
    hide Served;
    hide Posted;
    hide RunFrom;
    hide Acknowledge;
    TwoPostsRun(BOTH);
    RunAppend(EMPTY, TwoPosts(BOTH), NextFor("s", "c", 0));
    FirstOut(BOTH);
    RunAppend(EMPTY, TwoPosts(BOTH) + [NextFor("s", "c", 0)], NextFor("s", "c", 0));
    SecondOut(BOTH);
    RunAppend(EMPTY, TwoPosts(BOTH) + [NextFor("s", "c", 0)] + [NextFor("s", "c", 0)], Ack("s", "c", 2));
    Acknowledges(Posted(2), [FIRST, SECOND], Cursor(BOTH, 3, 2, map[1 := 0, 2 := 0], 2, 0),
                 Account(1, [FIRST, SECOND], {}), 2);
    assert {} + {2} == {2};
  }

  lemma {:induction false} LetterPattern(p: SubjectPattern)
    requires ValidPattern(p) && p.raw == "a"
    ensures p.tokens == [Literal("a")]
  {
    assert Split("a") == ["a"] by {
      assert "a"[1..] == "" && Split("") == [""] && ['a'] + "" == "a";
    }
    assert TokenText(p.tokens[0]) == Texts(p.tokens)[0] == "a";
    assert Classify("a") == Literal("a");
  }

  lemma {:induction false} LetterSubject()
    ensures Trim("a") == "a" && ParseSubject("b") == Success(Subject("b", ["b"]))
  {
    assert Trim("b") == "b";
    assert Split("b") == ["b"] by {
      assert "b"[1..] == "" && Split("") == [""] && ['b'] + "" == "b";
    }
    assert Utf8Len("b") == 1 by {
      assert "b"[1..] == "" && Utf8Len("") == 0;
    }
  }

  lemma {:induction false} OtherLetterFails()
    ensures !Meets(Some("a"), "b")
  {
    LetterSubject();
    forall p, s | ValidPattern(p) && p.raw == Trim("a") && ParseSubject("b") == Success(s)
      ensures !MatchTokens(p.tokens, s.tokens)
    {
      LetterPattern(p);
      assert s.tokens == ["b"];
    }
  }

  /**
   One run breaks both promises: message 1 stays pending after the acknowledgement of 2 was accepted under
   `AckAll`, and the consumer that filters for `a` was handed two messages on `b`.
   */
  lemma {:induction false} PromisesBroken()
    ensures LegalRun(BROKEN_PROMISES) && BOTH.ackPolicy == AckAll && BOTH.filterSubject == Some("a")
    ensures var l := RunFrom(EMPTY, BROKEN_PROMISES);
            && ("s", "c") in l.accounts && Key("s", "c") in l.state.consumers
            && l.state.consumers[Key("s", "c")].config == BOTH
            && 2 in l.accounts[("s", "c")].acked
            && 1 in l.state.consumers[Key("s", "c")].pending
            && |l.accounts[("s", "c")].handed| == 2
            && forall m :: m in l.accounts[("s", "c")].handed ==> !Meets(BOTH.filterSubject, m.subject)
  {
    hide RunFrom;
    hide Meets;
    hide LegalRun;
    BrokenPromisesRun();
    OtherLetterFails();
  }

  // Needing no acknowledgement

  const NO_ACKS: ConsumerConfig := ConsumerConfig("c", "s", None, All, NoAck, 1)

  /** A consumer that need not acknowledge, with a bound of one, is refused the second of two messages. */
  lemma {:induction false} NoAckHeldBack()
    ensures NO_ACKS.ackPolicy == NoAck
    ensures var ops := TwoPosts(NO_ACKS) + [NextFor("s", "c", 0)];
            var l := RunFrom(EMPTY, ops);
            && LegalRun(ops) && ("s", "c") in l.accounts && Handed(l, ("s", "c")) == [FIRST]
            && !Lapped(l, ("s", "c")) && Stored(l, "s") == [FIRST, SECOND]
            && Step(l.state, NextFor("s", "c", 0)).1 == Message(None)
  {
    hide Perform;
    hide RunFrom;
    hide Step;
    TwoPostsRun(NO_ACKS);
    RunAppend(EMPTY, TwoPosts(NO_ACKS), NextFor("s", "c", 0));
    FirstOut(NO_ACKS);
    Asks(Posted(2), [FIRST, SECOND], Cursor(NO_ACKS, 2, 1, map[1 := 0], 1, 0), Account(1, [FIRST], {}));
  }

  // Only the last message

  const LAST_ONLY: ConsumerConfig := ConsumerConfig("c", "s", None, Last, Explicit, 0)

  /** A post, a consumer for the last message, another post. */
  const LAST_AND_MORE: seq<Op> :=
    [CreateStream("s", DEFAULT_CONFIG), StoreMessage("s", POST), CreateConsumer(LAST_ONLY), StoreMessage("s", POST)]

  lemma {:induction false} LastAndMoreRun()
    ensures LegalRun(LAST_AND_MORE) && RunFrom(EMPTY, LAST_AND_MORE) == Fresh(LAST_ONLY)
  {
    hide Perform;
    hide Shop;
    hide RunFrom;
    hide Store;
    hide Posted;
    var ops := LAST_AND_MORE;
    NothingPosted();
    PostedStep(0);
    PostedStep(1);
    PostedLast();
    RunStep(ops, 0);
    Opens(DEFAULT_CONFIG);
    RunStep(ops, 1);
    Stores(Posted(0), [], map[], map[]);
    RunStep(ops, 2);
    Registers(Posted(1), [FIRST], LAST_ONLY);
    RunStep(ops, 3);
    var c := NewCursor(LAST_ONLY, 1);
    Stores(Posted(1), [FIRST], map[Key("s", "c") := c], map[("s", "c") := Account(1, [], {})]);
    assert ops[..4] == ops;
  }

  /** The consumer for only the last message is handed it, and then the next one. */
  lemma {:induction false} LastGetsMore()
    ensures LAST_ONLY.deliverPolicy == Last
    ensures var ops := LAST_AND_MORE + [NextFor("s", "c", 0)] + [NextFor("s", "c", 0)];
            var l := RunFrom(EMPTY, ops);
            LegalRun(ops) && ("s", "c") in l.accounts && Handed(l, ("s", "c")) == [FIRST, SECOND]
  {
    hide Perform;
    hide RunFrom;
    LastAndMoreRun();
    RunAppend(EMPTY, LAST_AND_MORE, NextFor("s", "c", 0));
    FirstOut(LAST_ONLY);
    RunAppend(EMPTY, LAST_AND_MORE + [NextFor("s", "c", 0)], NextFor("s", "c", 0));
    SecondOut(LAST_ONLY);
  }

  // All messages

  const ONE_KEPT: StreamConfig := StreamConfig(1, 0, 0)
  const FROM_FIRST: ConsumerConfig := ConsumerConfig("c", "s", None, All, Explicit, 0)

  /** Two posts to a stream that keeps one. */
  const FIRST_DROPPED: seq<Op> :=
    [CreateStream("s", ONE_KEPT), StoreMessage("s", POST), StoreMessage("s", POST)]

  lemma {:induction false} OneKept()
    ensures Store(NewLog(ONE_KEPT), POST) == Holding(ONE_KEPT, 1, [FIRST])
    ensures Store(Holding(ONE_KEPT, 1, [FIRST]), POST) == Holding(ONE_KEPT, 2, [SECOND])
  {
    assert [] + [FIRST] == [FIRST] && [FIRST] + [SECOND] == [FIRST, SECOND] && [FIRST, SECOND][1..] == [SECOND];
    assert DropExcess([FIRST], 1) == [FIRST];
    assert DropExcess([FIRST, SECOND], 1) == DropExcess([FIRST, SECOND][1..], 1) == [SECOND];
  }

  lemma {:induction false} FirstDroppedRun()
    ensures LegalRun(FIRST_DROPPED)
    ensures RunFrom(EMPTY, FIRST_DROPPED) == Shop(Holding(ONE_KEPT, 2, [SECOND]), [FIRST, SECOND], map[], map[])
  {
    hide Perform;
    hide Shop;
    hide RunFrom;
    hide Store;
    var ops := FIRST_DROPPED;
    OneKept();
    RunStep(ops, 0);
    Opens(ONE_KEPT);
    RunStep(ops, 1);
    Stores(NewLog(ONE_KEPT), [], map[], map[]);
    RunStep(ops, 2);
    Stores(Holding(ONE_KEPT, 1, [FIRST]), [FIRST], map[], map[]);
    assert [] + [FIRST] == [FIRST] && [FIRST] + [SECOND] == [FIRST, SECOND];
    assert ops[..3] == ops;
  }

  /** A consumer for all messages of a stream that dropped its first one gets nothing, now or ever. */
  lemma {:induction false} AllGetsNothing()
    ensures LegalRun(FIRST_DROPPED) && FROM_FIRST.deliverPolicy == All
    ensures var l := RunFrom(EMPTY, FIRST_DROPPED);
            && Stored(l, "s") == [FIRST, SECOND] && "s" in l.state.streams && l.state.streams["s"].firstSeq == 2
            && Step(Perform(l, CreateConsumer(FROM_FIRST)).state, NextFor("s", "c", 0)).1 == Message(None)
            && !CanBeServed(Perform(l, CreateConsumer(FROM_FIRST)), ("s", "c"))
  {
    hide RunFrom;
    hide Step;
    hide CanBeServed;
    var l := RunFrom(EMPTY, FIRST_DROPPED);
    FirstDroppedRun();
    EmptyInv();
    RunKeepsInv(EMPTY, FIRST_DROPPED);
    AllStartsAtFirstIff(l, FROM_FIRST, 0);
  }
}
