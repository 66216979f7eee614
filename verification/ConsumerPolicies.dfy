/**
 Two consumer settings that the documentation gives a meaning and the code never reads: `AckPolicy::All`,
 "acknowledging a message acks all messages before it", and `filter_subject`, "only deliver messages
 matching this pattern". They change nothing over any run, and each is kept exactly when the traffic
 happens to keep it.
 */
module ConsumerPolicies {
  import opened Wrappers
  import opened Subjects
  import opened Streams
  import opened Consumers
  import opened ConsumerRuns
  import opened ConsumerService

  // The settings are never consulted

  function EraseConfig(config: ConsumerConfig): ConsumerConfig {
    config.(filterSubject := None, ackPolicy := Explicit)
  }

  function EraseOp(op: Op): Op {
    if op.CreateConsumer? then CreateConsumer(EraseConfig(op.consumer)) else op
  }

  function EraseOps(ops: seq<Op>): (r: seq<Op>)
    ensures |r| == |ops|
  {
    seq(|ops|, i requires 0 <= i < |ops| => EraseOp(ops[i]))
  }

  function EraseCursor(c: Cursor): Cursor {
    c.(config := EraseConfig(c.config))
  }

  function EraseState(s: StoreState): StoreState {
    s.(consumers := EraseCursors(s.consumers))
  }

  function EraseCursors(m: map<string, Cursor>): map<string, Cursor> {
    map k | k in m :: EraseCursor(m[k])
  }

  function EraseLedger(l: Ledger): Ledger {
    l.(state := EraseState(l.state))
  }

  lemma {:induction false} EraseUpdated(m: map<string, Cursor>, key: string, c: Cursor)
    ensures EraseCursors(m[key := c]) == EraseCursors(m)[key := EraseCursor(c)]
  {
  }

  lemma {:induction false} NextErased(s: StoreState, stream: string, name: string, now: nat)
    ensures NextForConsumer(EraseState(s), stream, name, now) ==
            (EraseState(NextForConsumer(s, stream, name, now).0), NextForConsumer(s, stream, name, now).1)
  {
    var key := Key(stream, name);
    if key in s.consumers {
      var c := s.consumers[key];
      EraseUpdated(s.consumers, key, RecordDelivery(c, c.next, now));
    }
  }

  lemma {:induction false} AckErased(s: StoreState, stream: string, name: string, sequence: nat)
    requires AllCounted(s.streams)
    ensures Step(EraseState(s), Ack(stream, name, sequence)) ==
            (EraseState(Step(s, Ack(stream, name, sequence)).0), Step(s, Ack(stream, name, sequence)).1)
  {
    var key := Key(stream, name);
    if key in s.consumers {
      EraseUpdated(s.consumers, key, Acknowledge(s.consumers[key], sequence).0);
    }
  }

  lemma {:induction false} StepErased(s: StoreState, op: Op)
    requires AllCounted(s.streams)
    ensures Step(EraseState(s), EraseOp(op)) == (EraseState(Step(s, op).0), Step(s, op).1)
  {
    match op
    case CreateConsumer(config) =>
      if config.stream in s.streams {
        EraseUpdated(s.consumers, Key(config.stream, config.durableName),
                     NewCursor(config, s.streams[config.stream].lastSeq));
      }
    case NextFor(stream, name, now) => NextErased(s, stream, name, now);
    case Ack(stream, name, sequence) => AckErased(s, stream, name, sequence);
    case DeleteConsumer(stream, name) =>
      assert EraseState(s).consumers - {Key(stream, name)} ==
             EraseState(s.(consumers := s.consumers - {Key(stream, name)})).consumers;
    case _ =>
  }

  lemma {:induction false} PerformErased(l: Ledger, op: Op)
    requires AllCounted(l.state.streams)
    ensures Perform(EraseLedger(l), EraseOp(op)) == EraseLedger(Perform(l, op))
  {
    hide Step;
    hide EraseState;
    StreamsKept(l.state);
    StepErased(l.state, op);
  }

  lemma {:induction false} StreamsKept(s: StoreState)
    ensures EraseState(s).streams == s.streams
  {
  }

  lemma {:induction false} RunErased(l: Ledger, ops: seq<Op>)
    requires AllCounted(l.state.streams)
    ensures RunFrom(EraseLedger(l), EraseOps(ops)) == EraseLedger(RunFrom(l, ops))
    ensures Replies(EraseLedger(l), EraseOps(ops)) == Replies(l, ops)
  {
    hide Step;
    hide Perform;
    hide EraseState;
    StreamsKept(l.state);
    if ops != [] {
      var before, last := ops[..|ops| - 1], ops[|ops| - 1];
      assert EraseOps(ops)[..|ops| - 1] == EraseOps(before);
      RunErased(l, before);
      PerformErased(RunFrom(l, before), last);
      StepErased(RunFrom(l, before).state, last);
      StreamsKept(RunFrom(l, before).state);
    }
  }

  /** The two cursors differ at most in the settings. */
  ghost predicate SameProgress(c: Cursor, d: Cursor) {
    EraseCursor(c) == EraseCursor(d)
  }

  /**
   Runs that differ only in the acknowledgement policies and subject filters of the consumers they create
   get the same replies, hand out the same messages, accept the same acknowledgements and leave the same
   messages pending.
   */
  lemma {:induction false} SettingsChangeNothing(ops: seq<Op>, ops': seq<Op>)
    requires EraseOps(ops) == EraseOps(ops')
    ensures Replies(EMPTY, ops) == Replies(EMPTY, ops')
    ensures RunFrom(EMPTY, ops).accounts == RunFrom(EMPTY, ops').accounts
    ensures var s, s' := RunFrom(EMPTY, ops).state, RunFrom(EMPTY, ops').state;
            && s.streams == s'.streams && s.consumers.Keys == s'.consumers.Keys
            && forall k :: k in s.consumers ==> SameProgress(s.consumers[k], s'.consumers[k])
  {
    hide RunFrom;
    hide Replies;
    RunErased(EMPTY, ops);
    RunErased(EMPTY, ops');
    var s, s' := RunFrom(EMPTY, ops).state, RunFrom(EMPTY, ops').state;
    assert EraseState(s) == EraseState(s');
    assert s.consumers.Keys == EraseState(s).consumers.Keys == s'.consumers.Keys;
    forall k | k in s.consumers ensures SameProgress(s.consumers[k], s'.consumers[k]) {
      assert EraseState(s).consumers[k] == EraseState(s').consumers[k];
    }
  }

  // Acknowledging everything before

  /** Nothing up to `sequence` is pending. */
  ghost predicate ClearedUpTo(c: Cursor, sequence: nat) {
    forall i :: i in c.pending ==> i > sequence
  }

  /** The cursor of consumer `p` after a run, if it exists. */
  ghost function CursorAfter(ops: seq<Op>, p: Name): Option<Cursor> {
    var s := RunFrom(EMPTY, ops).state;
    if Key(p.0, p.1) in s.consumers then Some(s.consumers[Key(p.0, p.1)]) else None
  }

  lemma {:induction false} AckedCursor(ops: seq<Op>, p: Name, sequence: nat)
    ensures CursorAfter(ops, p).Some? ==>
              CursorAfter(ops + [Ack(p.0, p.1, sequence)], p) ==
              Some(Acknowledge(CursorAfter(ops, p).value, sequence).0)
  {
    hide Acknowledge;
    assert (ops + [Ack(p.0, p.1, sequence)])[..|ops|] == ops;
  }

  /**
   Whatever the policy, an accepted acknowledgement leaves nothing pending up to its number if and only if
   every lower message the consumer was handed had been acknowledged already.
   */
  lemma {:induction false} AckClearsEarlierIff(ops: seq<Op>, p: Name, sequence: nat)
    requires ConsumerRuns.LegalRun(ops) && p in RunFrom(EMPTY, ops).accounts
    requires CursorAfter(ops, p).Some? && sequence in CursorAfter(ops, p).value.pending
    ensures var a := RunFrom(EMPTY, ops).accounts[p];
            var after := CursorAfter(ops + [Ack(p.0, p.1, sequence)], p);
            && after.Some?
            && (ClearedUpTo(after.value, sequence) <==> forall i :: a.start <= i < sequence ==> i in a.acked)
  {
    hide RunFrom;
    AckedCursor(ops, p, sequence);
    EmptyInv();
    RunKeepsInv(EMPTY, ops);
    assert Holds(RunFrom(EMPTY, ops), AConsumer(p));
    var a := RunFrom(EMPTY, ops).accounts[p];
    var after := CursorAfter(ops + [Ack(p.0, p.1, sequence)], p).value;
    if i :| a.start <= i < sequence && i !in a.acked {
      assert i in after.pending;
    }
  }

  // Filtering by subject

  /** The subject matches the filter, as the documentation means it. */
  ghost predicate Meets(filter: Option<string>, subject: string) {
    filter.Some? ==>
      exists p, s :: ValidPattern(p) && p.raw == Trim(filter.value) && ParseSubject(subject) == Success(s) &&
                     MatchTokens(p.tokens, s.tokens)
  }

  ghost predicate AllMeet(filter: Option<string>, s: seq<StoredMessage>) {
    forall i :: 0 <= i < |s| ==> Meets(filter, s[i].subject)
  }

  /** The messages from the consumer's start on that it has been handed or can get by asking. */
  ghost function Share(l: Ledger, p: Name): seq<StoredMessage>
    requires p in l.accounts
  {
    var start, h := l.accounts[p].start, Stored(l, p.0);
    var end := if Lapped(l, p) then Next(l, p) - 1 else |h|;
    if 1 <= start <= end <= |h| then h[start - 1..end] else []
  }

  lemma {:induction false} MeetConcat(filter: Option<string>, a: seq<StoredMessage>, b: seq<StoredMessage>)
    ensures AllMeet(filter, a + b) <==> AllMeet(filter, a) && AllMeet(filter, b)
  {
    hide Meets;
    if AllMeet(filter, a + b) {
      assert forall i :: 0 <= i < |a| ==> (a + b)[i] == a[i];
      assert forall i :: 0 <= i < |b| ==> (a + b)[|a| + i] == b[i];
    }
  }

  /** The share is what was handed and the longest stretch that asking can get. */
  lemma {:induction false} ShareIs(l: Ledger, p: Name)
    requires Inv(l) && p in l.accounts
    ensures |Handed(l, p)| <= |Share(l, p)| && Share(l, p) == Handed(l, p) + Share(l, p)[|Handed(l, p)|..]
    ensures Ahead(l, p, Share(l, p)[|Handed(l, p)|..])
    ensures forall s :: Ahead(l, p, s) ==> |Handed(l, p)| + |s| <= |Share(l, p)| && Handed(l, p) + s <= Share(l, p)
  {
    hide Inv;
    hide Stored;
    AccountSays(l, p);
  }

  /**
   Whatever the filter, everything a consumer has been handed or can get by asking meets it if and only if
   every message stored from its start on does, up to where retention overtook it.
   */
  lemma {:induction false} FilterKeptIff(ops: seq<Op>, p: Name, filter: Option<string>)
    requires LegalRun(ops) && p in RunFrom(EMPTY, ops).accounts
    ensures var l := RunFrom(EMPTY, ops);
            (forall more :: Asking(more) ==> AllMeet(filter, Handed(RunFrom(l, more), p))) <==>
            AllMeet(filter, Share(l, p))
  {
    hide *;
    RunCounted(ops);
    var l := RunFrom(EMPTY, ops);
    EmptyInv();
    RunKeepsInv(EMPTY, ops);
    ShareIs(l, p);
    var ahead := Share(l, p)[|Handed(l, p)|..];
    if AllMeet(filter, Share(l, p)) {
      forall more | Asking(more) ensures AllMeet(filter, Handed(RunFrom(l, more), p)) {
        AskingGets(l, p, more);
        PrefixMeets(filter, Handed(RunFrom(l, more), p), Share(l, p));
      }
    } else {
      CanGetIff(l, p, ahead);
      var more := Getting(l, p, ahead);
    }
  }

  lemma {:induction false} RunCounted(ops: seq<Op>)
    ensures AllCounted(EMPTY.state.streams) && AllCounted(RunFrom(EMPTY, ops).state.streams)
  {
  }

  lemma {:induction false} Getting(l: Ledger, p: Name, s: seq<StoredMessage>) returns (more: seq<Op>)
    requires AllCounted(l.state.streams) && CanGet(l, p, s)
    ensures Asking(more) && Handed(RunFrom(l, more), p) == Handed(l, p) + s
  {
    more :| Asking(more) && Handed(RunFrom(l, more), p) == Handed(l, p) + s;
  }

  lemma {:induction false} PrefixMeets(filter: Option<string>, a: seq<StoredMessage>, b: seq<StoredMessage>)
    requires a <= b && AllMeet(filter, b)
    ensures AllMeet(filter, a)
  {
    assert b == a + b[|a|..];
    MeetConcat(filter, a, b[|a|..]);
  }
}
