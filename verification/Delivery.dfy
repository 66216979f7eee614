/**
 Delivery to subscribers. A handle's behaviour is an oracle: the status it returns may depend on
 everything attempted so far, so a statement for every oracle holds for every channel, full or not.
 */
module Delivery {
  import opened Bytes
  import opened Wrappers
  import opened Subjects
  import opened Seqs
  import opened Tries

  type ConnId = nat
  type HandleId = nat

  /** What a publisher sends: subject, payload, reply subject and headers. */
  datatype Content = Content(
    subject: Subject, payload: seq<byte>, reply: Option<Subject>, headers: Option<map<string, string>>)

  datatype DeliveryMessage = DeliveryMessage(sub: SubId, conn: ConnId, content: Content)

  datatype Status = Delivered | ChannelFull | Failed(error: string)

  datatype Attempt = Attempt(handle: HandleId, msg: DeliveryMessage)

  datatype Entry = Entry(attempt: Attempt, status: Status)

  type Oracle = (seq<Entry>, Attempt) -> Status

  /** The attempts made so far with their outcome, and the delivery counters. */
  datatype Out = Out(log: seq<Entry>, published: nat, delivered: nat, dropped: nat)

  /** One call of `deliver` and its accounting. */
  function Deliver(o: Oracle, out: Out, a: Attempt): Out {
    var status := o(out.log, a);
    var log := out.log + [Entry(a, status)];
    if status.Delivered? then out.(log := log, delivered := out.delivered + 1)
    else out.(log := log, dropped := out.dropped + 1)
  }

  function DeliverAll(o: Oracle, out: Out, attempts: seq<Attempt>): Out {
    if attempts == [] then out
    else Deliver(o, DeliverAll(o, out, attempts[..|attempts| - 1]), attempts[|attempts| - 1])
  }

  lemma {:induction false} DeliverAllConcat(o: Oracle, out: Out, a: seq<Attempt>, b: seq<Attempt>)
    ensures DeliverAll(o, out, a + b) == DeliverAll(o, DeliverAll(o, out, a), b)
  {
    if b == [] {
      assert a + b == a;
    } else {
      DeliverAllConcat(o, out, a, b[..|b| - 1]);
      assert (a + b)[..|a + b| - 1] == a + b[..|b| - 1];
    }
  }

  /** The default `deliver_batch`: stop at the first refusal; the count of accepted messages. */
  function DeliverBatch(o: Oracle, log: seq<Entry>, attempts: seq<Attempt>): (r: (seq<Entry>, nat))
    ensures r.1 <= |attempts|
    decreases |attempts|
  {
    if attempts == [] then (log, 0)
    else
      var status := o(log, attempts[0]);
      var log' := log + [Entry(attempts[0], status)];
      if status.Delivered? then
        var (rest, accepted) := DeliverBatch(o, log', attempts[1..]);
        (rest, accepted + 1)
      else (log', 0)
  }

  /** A batch handed to one handle, with every message counted as delivered or dropped. */
  function Flush(o: Oracle, out: Out, attempts: seq<Attempt>): Out {
    var (log, accepted) := DeliverBatch(o, out.log, attempts);
    out.(log := log, delivered := out.delivered + accepted, dropped := out.dropped + (|attempts| - accepted))
  }

  /** A batch of one is an ordinary delivery. */
  lemma {:induction false} FlushOne(o: Oracle, out: Out, a: Attempt)
    ensures Flush(o, out, [a]) == Deliver(o, out, a)
  {
    var log' := out.log + [Entry(a, o(out.log, a))];
    assert [a][1..] == [];
    assert DeliverBatch(o, log', [a][1..]) == (log', 0);
  }

  function AttemptsOf(log: seq<Entry>): (r: seq<Attempt>)
    ensures |r| == |log|
    ensures forall i :: 0 <= i < |log| ==> r[i] == log[i].attempt
  {
    seq(|log|, i requires 0 <= i < |log| => log[i].attempt)
  }

  /** Every attempt is logged once, in order. */
  lemma {:induction false} DeliverAllLog(o: Oracle, out: Out, attempts: seq<Attempt>)
    ensures AttemptsOf(DeliverAll(o, out, attempts).log) == AttemptsOf(out.log) + attempts
  {
    if attempts != [] {
      DeliverAllLog(o, out, attempts[..|attempts| - 1]);
    }
  }

  lemma {:induction false} DeliverAllCounts(o: Oracle, out: Out, attempts: seq<Attempt>)
    ensures DeliverAll(o, out, attempts).delivered + DeliverAll(o, out, attempts).dropped
         == out.delivered + out.dropped + |attempts|
    ensures DeliverAll(o, out, attempts).published == out.published
  {
    if attempts != [] {
      DeliverAllCounts(o, out, attempts[..|attempts| - 1]);
    }
  }

  ghost predicate Accepts(o: Oracle, log: seq<Entry>, a: Attempt) {
    o(log, a).Delivered?
  }

  ghost predicate AlwaysAccepts(o: Oracle) {
    forall log, a :: Accepts(o, log, a)
  }

  /** With a handle that accepts everything, a batch is the same as its messages one by one. */
  lemma {:induction false} FlushAccepting(o: Oracle, out: Out, attempts: seq<Attempt>)
    requires AlwaysAccepts(o)
    ensures Flush(o, out, attempts) == DeliverAll(o, out, attempts)
    decreases |attempts|
  {
    if attempts != [] {
      var first := Deliver(o, out, attempts[0]);
      assert Accepts(o, out.log, attempts[0]);
      FlushAccepting(o, first, attempts[1..]);
      assert attempts == [attempts[0]] + attempts[1..];
      DeliverAllConcat(o, out, [attempts[0]], attempts[1..]);
      assert [attempts[0]][..0] == [];
      assert DeliverAll(o, out, [attempts[0]]) == first;
    }
  }

  /** The contents attempted for one subscription, in order. */
  function Got(attempts: seq<Attempt>, id: SubId): seq<Content> {
    if attempts == [] then []
    else
      var last := attempts[|attempts| - 1];
      Got(attempts[..|attempts| - 1], id) + if last.msg.sub == id then [last.msg.content] else []
  }

  lemma {:induction false} GotConcat(a: seq<Attempt>, b: seq<Attempt>, id: SubId)
    ensures Got(a + b, id) == Got(a, id) + Got(b, id)
  {
    if b == [] {
      assert a + b == a;
    } else {
      GotConcat(a, b[..|b| - 1], id);
      assert (a + b)[..|a + b| - 1] == a + b[..|b| - 1];
      var last := b[|b| - 1];
      ConcatAssoc(Got(a, id), Got(b[..|b| - 1], id), if last.msg.sub == id then [last.msg.content] else []);
    }
  }

  /** What a subscription received: the accepted ones among its attempts. */
  function Received(log: seq<Entry>, id: SubId): seq<Content> {
    if log == [] then []
    else
      var last := log[|log| - 1];
      Received(log[..|log| - 1], id)
      + if last.attempt.msg.sub == id && last.status.Delivered? then [last.attempt.msg.content] else []
  }

  /** With accepting handles, what was attempted is what was received. */
  lemma {:induction false} ReceivedAll(o: Oracle, out: Out, attempts: seq<Attempt>, id: SubId)
    requires AlwaysAccepts(o)
    ensures Received(DeliverAll(o, out, attempts).log, id) == Received(out.log, id) + Got(attempts, id)
  {
    if attempts != [] {
      var before := DeliverAll(o, out, attempts[..|attempts| - 1]);
      ReceivedAll(o, out, attempts[..|attempts| - 1], id);
      assert Accepts(o, before.log, attempts[|attempts| - 1]);
      assert DeliverAll(o, out, attempts).log[..|before.log|] == before.log;
    }
  }

  // ---- a bounded channel nobody drains ----

  /** Messages accepted by handle `h`. */
  function Accepted(log: seq<Entry>, h: HandleId): nat {
    if log == [] then 0
    else
      var last := log[|log| - 1];
      Accepted(log[..|log| - 1], h) + if last.attempt.handle == h && last.status.Delivered? then 1 else 0
  }

  lemma {:induction false} AcceptedAppend(log: seq<Entry>, e: Entry, h: HandleId)
    ensures Accepted(log + [e], h) == Accepted(log, h) + if e.attempt.handle == h && e.status.Delivered? then 1 else 0
  {
    assert (log + [e])[..|log|] == log;
  }

  /** `try_send` on a channel of capacity `cap`: accepted while there is room. */
  ghost predicate SendsWhileRoom(o: Oracle, h: HandleId, cap: nat, log: seq<Entry>, a: Attempt) {
    a.handle == h ==> (o(log, a).Delivered? <==> Accepted(log, h) < cap)
  }

  ghost predicate BoundedChannel(o: Oracle, h: HandleId, cap: nat) {
    forall log: seq<Entry>, a: Attempt :: SendsWhileRoom(o, h, cap, log, a)
  }

  function Min(a: nat, b: nat): nat {
    if a <= b then a else b
  }

  /** From `out` to `out'`, `n` messages were offered to channel `h`, which took what it had room for. */
  ghost predicate Filled(out: Out, out': Out, n: nat, h: HandleId, cap: nat) {
    && Accepted(out.log, h) <= cap
    && Accepted(out'.log, h) == Min(cap, Accepted(out.log, h) + n)
    && out'.delivered - out.delivered == Accepted(out'.log, h) - Accepted(out.log, h)
  }

  lemma {:induction false} FilledTwice(out: Out, mid: Out, out': Out, m: nat, n: nat, h: HandleId, cap: nat)
    requires Filled(out, mid, m, h, cap) && Filled(mid, out', n, h, cap)
    ensures Filled(out, out', m + n, h, cap)
  {
  }

  lemma {:induction false} FilledFrom(out: Out, out1: Out, out': Out, n: nat, h: HandleId, cap: nat)
    requires out1 == out.(published := out1.published) && Filled(out1, out', n, h, cap)
    ensures Filled(out, out', n, h, cap)
  {
  }

  lemma {:induction false} FilledDelivers(out: Out, out': Out, n: nat, h: HandleId, cap: nat)
    requires Filled(out, out', n, h, cap)
    ensures out'.delivered == out.delivered + Min(cap - Accepted(out.log, h), n)
  {
  }

  lemma {:induction false} DeliverBounded(o: Oracle, out: Out, a: Attempt, h: HandleId, cap: nat)
    requires BoundedChannel(o, h, cap) && a.handle == h && Accepted(out.log, h) <= cap
    ensures Filled(out, Deliver(o, out, a), 1, h, cap)
  {
    assert SendsWhileRoom(o, h, cap, out.log, a);
    AcceptedAppend(out.log, Entry(a, o(out.log, a)), h);
  }

  ghost predicate AllTo(attempts: seq<Attempt>, h: HandleId) {
    forall i :: 0 <= i < |attempts| ==> attempts[i].handle == h
  }

  lemma {:induction false} DeliverAllBounded(o: Oracle, out: Out, attempts: seq<Attempt>, h: HandleId, cap: nat)
    requires BoundedChannel(o, h, cap) && Accepted(out.log, h) <= cap && AllTo(attempts, h)
    ensures Filled(out, DeliverAll(o, out, attempts), |attempts|, h, cap)
  {
    if attempts != [] {
      var before, last := attempts[..|attempts| - 1], attempts[|attempts| - 1];
      DeliverAllBounded(o, out, before, h, cap);
      var mid := DeliverAll(o, out, before);
      DeliverBounded(o, mid, last, h, cap);
      FilledTwice(out, mid, Deliver(o, mid, last), |before|, 1, h, cap);
    }
  }

  lemma {:induction false} FlushStep(o: Oracle, out: Out, attempts: seq<Attempt>)
    requires attempts != []
    ensures var first := Deliver(o, out, attempts[0]);
            if o(out.log, attempts[0]).Delivered? then Flush(o, out, attempts) == Flush(o, first, attempts[1..])
            else Flush(o, out, attempts).log == first.log && Flush(o, out, attempts).delivered == first.delivered
  {
  }

  /** Stopping at the first refusal loses nothing: a full channel stays full. */
  lemma {:induction false} FlushBounded(o: Oracle, out: Out, attempts: seq<Attempt>, h: HandleId, cap: nat)
    requires BoundedChannel(o, h, cap) && Accepted(out.log, h) <= cap && AllTo(attempts, h)
    ensures Filled(out, Flush(o, out, attempts), |attempts|, h, cap)
    decreases |attempts|
  {
    if attempts != [] {
      var first := Deliver(o, out, attempts[0]);
      DeliverBounded(o, out, attempts[0], h, cap);
      FlushStep(o, out, attempts);
      if o(out.log, attempts[0]).Delivered? {
        FlushBounded(o, first, attempts[1..], h, cap);
        FilledTwice(out, first, Flush(o, out, attempts), 1, |attempts| - 1, h, cap);
      } else {
        RefusedMeansFull(o, out, attempts[0], h, cap);
      }
    }
  }

  lemma {:induction false} RefusedMeansFull(o: Oracle, out: Out, a: Attempt, h: HandleId, cap: nat)
    requires BoundedChannel(o, h, cap) && a.handle == h && Accepted(out.log, h) <= cap
    requires !o(out.log, a).Delivered?
    ensures Accepted(out.log, h) == cap
  {
    assert SendsWhileRoom(o, h, cap, out.log, a);
  }
}
