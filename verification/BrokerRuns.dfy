/** Every run of broker operations from the empty broker keeps all indexes in agreement. */
module BrokerRuns {
  import opened Bytes
  import opened Wrappers
  import opened Subjects
  import opened Seqs
  import opened Tries
  import opened Routing
  import opened Delivery
  import opened BrokerState
  import opened Publishing
  import opened Batching

  datatype BrokerOp =
    | SubscribeOp(conn: ConnId, pattern: SubjectPattern, group: Option<string>, handle: HandleId, addr: nat)
    | UnsubscribeOp(id: SubId)
    | RemoveConnectionOp(conn: ConnId)
    | PublishOp(content: Content)
    | PublishTextOp(text: string, payload: seq<byte>, reply: Option<Subject>, headers: Option<map<string, string>>)
    | PublishBatchOp(items: seq<Content>, order: seq<SubId>)

  const NOTHING_SENT: Out := Out([], 0, 0, 0)

  /** What an operation does to the bookkeeping and what it delivers. */
  function Apply(b: Broker, o: Oracle, out: Out, op: BrokerOp): (Broker, Out) {
    match op
    case SubscribeOp(conn, p, group, handle, addr) => (Subscribe(b, conn, p, group, handle, addr), out)
    case UnsubscribeOp(id) => (Unsubscribe(b, id), out)
    case RemoveConnectionOp(conn) => (RemoveConnection(b, conn), out)
    case PublishOp(c) => Publish(b, o, out, c)
    case PublishTextOp(text, payload, reply, headers) => PublishStr(b, o, out, text, payload, reply, headers)
    case PublishBatchOp(items, order) => Batch(b, o, out, items, order)
  }

  function Run(o: Oracle, ops: seq<BrokerOp>): (Broker, Out) {
    if ops == [] then (EMPTY_BROKER, NOTHING_SENT)
    else
      var (b, out) := Run(o, ops[..|ops| - 1]);
      Apply(b, o, out, ops[|ops| - 1])
  }

  /** Patterns are parsed ones, and the allocator never hands out an address that is still in use. */
  ghost predicate Legal(o: Oracle, ops: seq<BrokerOp>) {
    ops != [] ==>
      var before, last := ops[..|ops| - 1], ops[|ops| - 1];
      Legal(o, before) &&
      (last.SubscribeOp? ==> ValidPattern(last.pattern) && FreshAddr(Run(o, before).0, last.addr))
  }

  lemma {:induction false} ApplyKeepsInv(b: Broker, o: Oracle, out: Out, op: BrokerOp)
    requires Inv(b)
    requires op.SubscribeOp? ==> ValidPattern(op.pattern) && FreshAddr(b, op.addr)
    ensures Inv(Apply(b, o, out, op).0)
  {
    hide Inv;
    hide ValidPattern;
    hide FreshAddr;
    match op {
      case SubscribeOp(conn, p, group, handle, addr) => SubscribeKeepsInv(b, conn, p, group, handle, addr);
      case UnsubscribeOp(id) => UnsubscribeKeepsInv(b, id);
      case RemoveConnectionOp(conn) => RemoveConnectionKeepsInv(b, conn);
      case PublishOp(c) => PublishKeepsInv(b, o, out, c);
      case PublishTextOp(text, payload, reply, headers) => PublishStrKeepsInv(b, o, out, text, payload, reply, headers);
      case PublishBatchOp(items, order) => BatchKeepsInv(b, o, out, items, order);
    }
  }

  lemma {:induction false} RunKeepsInv(o: Oracle, ops: seq<BrokerOp>)
    requires Legal(o, ops)
    ensures Inv(Run(o, ops).0)
  {
    hide Inv;
    hide Apply;
    if ops == [] {
      EmptyBrokerInv();
    } else {
      var (b, out) := Run(o, ops[..|ops| - 1]);
      RunKeepsInv(o, ops[..|ops| - 1]);
      ApplyKeepsInv(b, o, out, ops[|ops| - 1]);
    }
  }

  /**
   After every run, the per-connection lists and the groups hold exactly the live subscriptions that belong
   there, in subscribe order; the counter is the registry size; the cache answers as the parser.
   */
  lemma {:induction false} RunsAgree(o: Oracle, ops: seq<BrokerOp>, c: ConnId, k: GroupKey, text: string)
    requires Legal(o, ops)
    ensures var b := Run(o, ops).0;
            && Ascending(ConnList(b.byConn, c))
            && (forall id :: id in ConnList(b.byConn, c) <==> id in b.subs && b.subs[id].conn == c)
            && Ascending(Members(b.groups, k))
            && (forall id :: id in Members(b.groups, k) <==>
                  id in b.subs && b.subs[id].group == Some(k.name) && b.subs[id].pattern.raw == k.pattern)
            && b.active == |b.subs|
            && (text in b.cache ==> ParseSubject(text) == Success(b.cache[text]))
  {
    var b := Run(o, ops).0;
    RunKeepsInv(o, ops);
    assert Holds(b, Connections) && Holds(b, QueueGroups) && Holds(b, Counter) && Holds(b, Cache);
    assert Indexes(ConnList(b.byConn, c), ConnIds(b.subs, c)) && Indexes(Members(b.groups, k), GroupIds(b.subs, k));
    forall id ensures id in GroupIds(b.subs, k) <==>
                      id in b.subs && b.subs[id].group == Some(k.name) && b.subs[id].pattern.raw == k.pattern {
      GroupOfSub(b, k, id);
    }
  }

  lemma {:induction false} GroupOfSub(b: Broker, k: GroupKey, id: SubId)
    requires Inv(b)
    ensures id in GroupIds(b.subs, k) <==>
            id in b.subs && b.subs[id].group == Some(k.name) && b.subs[id].pattern.raw == k.pattern
  {
    assert Holds(b, Subscriptions) && Holds(b, Keys);
    if id in b.subs {
      assert SubOk(id, b.subs[id], b.keys);
    }
  }

  /** After every run, the router finds exactly the registered subscriptions whose pattern matches, each once. */
  lemma {:induction false} RunsRoute(o: Oracle, ops: seq<BrokerOp>, s: Subject)
    requires Legal(o, ops) && ValidSubject(s)
    ensures NoDup(MatchIds(Run(o, ops).0.router, s))
    ensures forall id :: id in MatchIds(Run(o, ops).0.router, s) <==>
                         id in Run(o, ops).0.subs && MatchTokens(Run(o, ops).0.subs[id].pattern.tokens, s.tokens)
  {
    RunKeepsInv(o, ops);
    MatchScan(Run(o, ops).0, s);
  }
}
