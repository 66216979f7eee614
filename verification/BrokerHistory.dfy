/**
 What a run of broker operations leaves registered and what it sends, read off the operations alone: who
 subscribed and has not left, with the connection, pattern, group and handle they came with.
 */
module BrokerHistory {
  import opened Wrappers
  import opened Subjects
  import opened Seqs
  import opened Tries
  import opened Routing
  import opened Delivery
  import opened BrokerState
  import opened Publishing
  import opened Batching
  import opened BatchLaws
  import opened BrokerRuns
  import RoundRobin

  // ---- who is registered ----

  /** What a subscriber brings along. */
  datatype Subscriber = Subscriber(conn: ConnId, pattern: SubjectPattern, group: Option<string>, handle: HandleId)

  function Subscribes(ops: seq<BrokerOp>): nat {
    if ops == [] then 0
    else Subscribes(ops[..|ops| - 1]) + if ops[|ops| - 1].SubscribeOp? then 1 else 0
  }

  /** The n-th subscribe adds id n; an unsubscribe takes one id out, a removed connection all of its ids. */
  function Registered(ops: seq<BrokerOp>): map<SubId, Subscriber> {
    if ops == [] then map[]
    else
      var before := ops[..|ops| - 1];
      var was := Registered(before);
      match ops[|ops| - 1]
      case SubscribeOp(conn, p, group, handle, _) => was[Subscribes(before) + 1 := Subscriber(conn, p, group, handle)]
      case UnsubscribeOp(id) => map i | i in was && i != id :: was[i]
      case RemoveConnectionOp(conn) => map i | i in was && was[i].conn != conn :: was[i]
      case _ => was
  }

  function Brings(sub: Subscription): Subscriber {
    Subscriber(sub.conn, sub.pattern, sub.group, sub.handle)
  }

  ghost predicate Agrees(b: Broker, was: map<SubId, Subscriber>, n: nat) {
    && b.nextId == n + 1
    && b.subs.Keys == was.Keys
    && forall id :: id in b.subs ==> Brings(b.subs[id]) == was[id]
  }

  lemma {:induction false} SubscribeAgrees(
    b: Broker, was: map<SubId, Subscriber>, n: nat,
    conn: ConnId, p: SubjectPattern, group: Option<string>, handle: HandleId, addr: nat)
    requires Agrees(b, was, n)
    ensures Agrees(Subscribe(b, conn, p, group, handle, addr), was[n + 1 := Subscriber(conn, p, group, handle)], n + 1)
  {
    hide InsertEngine;
  }

  lemma {:induction false} UnsubscribeAgrees(b: Broker, was: map<SubId, Subscriber>, n: nat, id: SubId)
    requires Agrees(b, was, n)
    ensures Agrees(Unsubscribe(b, id), map i | i in was && i != id :: was[i], n)
  {
    hide RemoveEngine;
  }

  lemma {:induction false} RemoveConnectionAgrees(b: Broker, was: map<SubId, Subscriber>, n: nat, conn: ConnId)
    requires Inv(b) && Agrees(b, was, n)
    ensures Agrees(RemoveConnection(b, conn), map i | i in was && was[i].conn != conn :: was[i], n)
  {
    hide Inv;
    hide RemoveMany;
    ConnListLive(b, conn);
    var b' := RemoveConnection(b, conn);
    forall id ensures id in b'.subs <==> id in was && was[id].conn != conn {
      assert id in b.subs ==> Brings(b.subs[id]) == was[id];
    }
  }

  /** Publishing registers nobody and takes nobody out. */
  lemma {:induction false} PublishAgrees(
    b: Broker, was: map<SubId, Subscriber>, n: nat, o: Oracle, out: Out, op: BrokerOp)
    requires Agrees(b, was, n) && (op.PublishOp? || op.PublishTextOp? || op.PublishBatchOp?)
    ensures Agrees(Apply(b, o, out, op).0, was, n)
  {
    hide SelectAll;
    hide QueuePlan;
    hide DeliverAll;
    hide FlushAll;
    hide ParseSubject;
  }

  /**
   After every legal run the registry holds exactly those who subscribed and have not left, under the number
   of their subscribe, each with the connection, pattern, group and handle it came with.
   */
  lemma {:induction false} RunsRegister(o: Oracle, ops: seq<BrokerOp>)
    requires Legal(o, ops)
    ensures var b := Run(o, ops).0;
            && b.nextId == Subscribes(ops) + 1
            && b.subs.Keys == Registered(ops).Keys
            && forall id :: id in b.subs ==>
                 && b.subs[id].conn == Registered(ops)[id].conn && b.subs[id].pattern == Registered(ops)[id].pattern
                 && b.subs[id].group == Registered(ops)[id].group && b.subs[id].handle == Registered(ops)[id].handle
  {
    RunAgrees(o, ops);
    var b := Run(o, ops).0;
    forall id | id in b.subs ensures Brings(b.subs[id]) == Registered(ops)[id] {
    }
  }

  lemma {:induction false} RunAgrees(o: Oracle, ops: seq<BrokerOp>)
    requires Legal(o, ops)
    ensures Agrees(Run(o, ops).0, Registered(ops), Subscribes(ops))
  {
    hide Agrees;
    hide Subscribe;
    hide Unsubscribe;
    hide RemoveConnection;
    hide FreshAddr;
    hide ValidPattern;
    if ops == [] {
      NobodyAgrees();
    } else {
      var before, last := ops[..|ops| - 1], ops[|ops| - 1];
      var (b, out) := Run(o, before);
      var was, n := Registered(before), Subscribes(before);
      RunAgrees(o, before);
      match last
      case SubscribeOp(conn, p, group, handle, addr) => SubscribeAgrees(b, was, n, conn, p, group, handle, addr);
      case UnsubscribeOp(id) => UnsubscribeAgrees(b, was, n, id);
      case RemoveConnectionOp(conn) =>
        BrokerRuns.RunKeepsInv(o, before);
        RemoveConnectionAgrees(b, was, n, conn);
      case _ => PublishAgrees(b, was, n, o, out, last);
    }
  }

  lemma {:induction false} NobodyAgrees()
    ensures Agrees(EMPTY_BROKER, map[], 0)
  {
  }

  // ---- whom an operation sends to ----

  /** The attempt goes to a live matching subscription by its own handle, with one of the contents. */
  ghost predicate Apt(subs: Subs, cs: seq<Content>, a: Attempt) {
    && a.msg.sub in subs
    && a.handle == subs[a.msg.sub].handle && a.msg.conn == subs[a.msg.sub].conn
    && a.msg.content in cs
    && MatchTokens(subs[a.msg.sub].pattern.tokens, a.msg.content.subject.tokens)
  }

  ghost predicate AllApt(subs: Subs, cs: seq<Content>, attempts: seq<Attempt>) {
    forall i :: 0 <= i < |attempts| ==> Apt(subs, cs, attempts[i])
  }

  /** The log is kept, and grows by such attempts only. */
  ghost predicate GrowsApt(subs: Subs, cs: seq<Content>, was: seq<Entry>, log: seq<Entry>) {
    was <= log && forall i :: |was| <= i < |log| ==> Apt(subs, cs, log[i].attempt)
  }

  lemma {:induction false} GrowsTwice(subs: Subs, cs: seq<Content>, a: seq<Entry>, b: seq<Entry>, c: seq<Entry>)
    requires GrowsApt(subs, cs, a, b) && GrowsApt(subs, cs, b, c)
    ensures GrowsApt(subs, cs, a, c)
  {
    hide Apt;
    forall i | |a| <= i < |c| ensures Apt(subs, cs, c[i].attempt) {
      if i < |b| {
        assert c[i] == b[i];
      }
    }
  }

  lemma {:induction false} DeliverAllGrows(subs: Subs, cs: seq<Content>, o: Oracle, out: Out, attempts: seq<Attempt>)
    requires AllApt(subs, cs, attempts)
    ensures GrowsApt(subs, cs, out.log, DeliverAll(o, out, attempts).log)
  {
    hide Apt;
    if attempts != [] {
      var before := attempts[..|attempts| - 1];
      assert AllApt(subs, cs, before);
      DeliverAllGrows(subs, cs, o, out, before);
      var mid := DeliverAll(o, out, before);
      GrowsTwice(subs, cs, out.log, mid.log, DeliverAll(o, out, attempts).log);
    }
  }

  lemma {:induction false} DeliverBatchGrows(
    subs: Subs, cs: seq<Content>, o: Oracle, log: seq<Entry>, attempts: seq<Attempt>)
    requires AllApt(subs, cs, attempts)
    ensures GrowsApt(subs, cs, log, DeliverBatch(o, log, attempts).0)
    decreases |attempts|
  {
    hide Apt;
    if attempts != [] {
      var log' := log + [Entry(attempts[0], o(log, attempts[0]))];
      assert GrowsApt(subs, cs, log, log');
      if o(log, attempts[0]).Delivered? {
        assert AllApt(subs, cs, attempts[1..]);
        DeliverBatchGrows(subs, cs, o, log', attempts[1..]);
        GrowsTwice(subs, cs, log, log', DeliverBatch(o, log', attempts[1..]).0);
      }
    }
  }

  /** One attempt per identifier, each of a live subscription that matches. */
  lemma {:induction false} AttemptsApt(b: Broker, cs: seq<Content>, ids: seq<SubId>, c: Content)
    requires c in cs && AllMatch(b, ids, c)
    ensures AllApt(b.subs, cs, Attempts(b.subs, ids, c))
  {
    hide MatchTokens;
    forall i | 0 <= i < |ids| ensures ids[i] in b.subs && MatchTokens(b.subs[ids[i]].pattern.tokens, c.subject.tokens) {
      assert ids[i] in ids;
    }
    AttemptsShape(b.subs, ids, c);
  }

  ghost predicate AllMatch(b: Broker, ids: seq<SubId>, c: Content) {
    forall i :: i in ids ==> i in b.subs && MatchTokens(b.subs[i].pattern.tokens, c.subject.tokens)
  }

  /** Whoever is selected for a matched group matches too. */
  lemma {:induction false} SelectedMatch(b: Broker, groups: Groups, refs: seq<KeyRef>, ids: seq<SubId>, c: Content)
    requires Inv(b) && SameMembers(groups, b.groups) && AllMatch(b, ids, c)
    requires forall ref :: ref in refs ==> ref in QueueRefs(b.subs, ids)
    ensures AllMatch(b, SelectAll(groups, refs).1, c)
  {
    hide Inv;
    hide MatchTokens;
    hide SelectAll;
    hide QueueRefs;
    RefsPopulated(b, groups, refs, ids);
    ChosenLive(b.(groups := groups), refs);
    var chosen := SelectAll(groups, refs).1;
    forall i | 0 <= i < |chosen| ensures MatchTokens(b.subs[chosen[i]].pattern.tokens, c.subject.tokens) {
      assert refs[i] in refs;
      ChosenMatches(b, c, ids, refs[i], chosen[i]);
    }
  }

  lemma {:induction false} RefsPopulated(b: Broker, groups: Groups, refs: seq<KeyRef>, ids: seq<SubId>)
    requires Inv(b) && SameMembers(groups, b.groups)
    requires forall ref :: ref in refs ==> ref in QueueRefs(b.subs, ids)
    ensures GroupInv(b.subs, groups) && AllPopulated(groups, refs)
  {
    hide QueueRefs;
    RefsOk(b, ids);
    assert Holds(b, QueueGroups);
    GroupInvStays(b, groups);
    forall i | 0 <= i < |refs| ensures Members(groups, refs[i].key) != [] {
      assert refs[i] in refs;
      assert Members(b.groups, refs[i].key) != [];
    }
  }

  lemma {:induction false} DeliverMatchesGrows(b: Broker, o: Oracle, out: Out, c: Content, ids: seq<SubId>)
    requires Inv(b) && AllMatch(b, ids, c)
    ensures GrowsApt(b.subs, [c], out.log, DeliverMatches(b, o, out, c, ids).1.log)
  {
    hide Inv;
    hide MatchTokens;
    hide SelectAll;
    hide QueueRefs;
    hide DeliverAll;
    var runs := Collapse(QueueRefs(b.subs, ids));
    forall ref | ref in runs ensures ref in QueueRefs(b.subs, ids) {
      CollapseSubset(QueueRefs(b.subs, ids), ref);
    }
    SelectedMatch(b, b.groups, runs, ids, c);
    FanoutOf(b.subs, ids);
    var first := Attempts(b.subs, SelectAll(b.groups, runs).1, c);
    var second := Attempts(b.subs, FanoutIds(b.subs, ids), c);
    AttemptsApt(b, [c], SelectAll(b.groups, runs).1, c);
    AttemptsApt(b, [c], FanoutIds(b.subs, ids), c);
    DeliverAllGrows(b.subs, [c], o, out, first);
    DeliverAllGrows(b.subs, [c], o, DeliverAll(o, out, first), second);
    GrowsTwice(b.subs, [c], out.log, DeliverAll(o, out, first).log,
               DeliverAll(o, DeliverAll(o, out, first), second).log);
  }

  lemma {:induction false} FanoutOf(subs: Subs, ids: seq<SubId>)
    ensures forall i :: i in FanoutIds(subs, ids) ==> i in ids
  {
    if ids != [] {
      FanoutOf(subs, ids[..|ids| - 1]);
    }
  }

  // ---- the three ways to publish ----

  lemma {:induction false} PublishGrows(b: Broker, o: Oracle, out: Out, c: Content)
    requires Inv(b) && ValidSubject(c.subject)
    ensures GrowsApt(b.subs, [c], out.log, Publish(b, o, out, c).1.log)
  {
    hide Inv;
    hide ValidSubject;
    hide MatchIds;
    hide DeliverMatches;
    MatchScan(b, c.subject);
    DeliverMatchesGrows(b, o, out.(published := out.published + 1), c, MatchIds(b.router, c.subject));
  }

  /** What the text path visits, the router would have found for the parsed subject. */
  lemma {:induction false} TextMatches(b: Broker, text: string, c: Content)
    requires Inv(b) && ParseSubject(text) == Success(c.subject)
    ensures AllMatch(b, StrIds(b, text, c.subject), c)
  {
    hide Inv;
    hide ParseSubject;
    hide ValidSubject;
    hide MatchTokens;
    ParsedSubjectIsValid(text);
    MatchScan(b, c.subject);
    if Trimmed(text) {
      TextPathVisitsSameIds(b, text);
    } else {
      UntrimmedIsUnlisted(b, text);
    }
  }

  /** The contents an operation publishes; a text that does not parse publishes nothing. */
  function Contents(op: BrokerOp): seq<Content> {
    match op
    case PublishOp(c) => [c]
    case PublishTextOp(text, payload, reply, headers) =>
      var r := ParseSubject(text);
      if r.Success? then [Content(r.value, payload, reply, headers)] else []
    case PublishBatchOp(items, _) => items
    case _ => []
  }

  lemma {:induction false} TextGrows(b: Broker, o: Oracle, out: Out, op: BrokerOp)
    requires Inv(b) && op.PublishTextOp?
    ensures GrowsApt(b.subs, Contents(op), out.log, Apply(b, o, out, op).1.log)
  {
    hide Inv;
    hide ParseSubject;
    hide DeliverMatches;
    hide StrIds;
    hide AllMatch;
    hide Apt;
    CacheIsTransparent(b, op.text);
    var (b1, s) := RouteStr(b, op.text);
    if s.Some? {
      var c := Content(s.value, op.payload, op.reply, op.headers);
      var ids := StrIds(b, op.text, s.value);
      TextMatches(b, op.text, c);
      SameMatches(b, b1, ids, c);
      DeliverMatchesGrows(b1, o, out.(published := out.published + 1), c, ids);
    }
  }

  lemma {:induction false} SameMatches(b: Broker, b1: Broker, ids: seq<SubId>, c: Content)
    requires AllMatch(b, ids, c) && b1.subs == b.subs
    ensures AllMatch(b1, ids, c)
  {
  }

  lemma {:induction false} PlanApt(b: Broker, items: seq<Content>, cs: seq<Content>)
    requires Inv(b) && ValidItems(items) && forall c :: c in items ==> c in cs
    ensures AllApt(b.subs, cs, QueuePlan(b, items).1)
  {
    hide Inv;
    hide ValidSubject;
    hide MatchIds;
    hide QueueRefs;
    hide SelectAll;
    hide Attempts;
    hide Apt;
    hide AllMatch;
    if items != [] {
      var n := |items| - 1;
      var c := items[n];
      assert ValidItems(items[..n]) && c in items;
      PlanApt(b, items[..n], cs);
      PlanKeepsMembers(b, items[..n]);
      var groups := QueuePlan(b, items[..n]).0;
      IdsMatch(b, c);
      SelectedMatch(b, groups, QueueRefs(b.subs, Ids(b, c)), Ids(b, c), c);
      AttemptsApt(b, cs, SelectAll(groups, QueueRefs(b.subs, Ids(b, c))).1, c);
    }
  }

  lemma {:induction false} IdsMatch(b: Broker, c: Content)
    requires Inv(b) && ValidSubject(c.subject)
    ensures AllMatch(b, Ids(b, c), c)
  {
    hide MatchIds;
    MatchScan(b, c.subject);
  }

  /** What is pending for a subscription are items that match it. */
  lemma {:induction false} MineMatch(b: Broker, items: seq<Content>, id: SubId, c: Content)
    requires Inv(b) && ValidItems(items) && id in b.subs && c in Mine(b, items, id)
    ensures c in items && MatchTokens(b.subs[id].pattern.tokens, c.subject.tokens)
  {
    hide Inv;
    hide ValidSubject;
    hide Ids;
    hide MatchTokens;
    var n := |items| - 1;
    assert ValidItems(items[..n]);
    if c in Mine(b, items[..n], id) {
      MineMatch(b, items[..n], id, c);
    } else {
      IdsMatch(b, c);
      assert c == items[n];
    }
  }

  lemma {:induction false} ToAttemptsApt(b: Broker, items: seq<Content>, id: SubId)
    requires Inv(b) && ValidItems(items) && id in b.subs
    ensures AllApt(b.subs, items, ToAttempts(b.subs, id, Mine(b, items, id)))
  {
    hide Inv;
    hide ValidSubject;
    hide Mine;
    hide MatchTokens;
    var mine := Mine(b, items, id);
    forall i | 0 <= i < |mine| ensures Apt(b.subs, items, ToAttempts(b.subs, id, mine)[i]) {
      MineMatch(b, items, id, mine[i]);
    }
  }

  lemma {:induction false} FlushAllGrows(b: Broker, o: Oracle, out: Out, items: seq<Content>, order: seq<SubId>)
    requires Inv(b) && ValidItems(items)
    ensures GrowsApt(b.subs, items, out.log, FlushAll(b, o, out, items, order).log)
  {
    hide Inv;
    hide ValidSubject;
    hide Mine;
    hide Apt;
    if order != [] {
      var id := order[|order| - 1];
      FlushAllGrows(b, o, out, items, order[..|order| - 1]);
      var before := FlushAll(b, o, out, items, order[..|order| - 1]);
      if id in b.subs {
        ToAttemptsApt(b, items, id);
        DeliverBatchGrows(b.subs, items, o, before.log, ToAttempts(b.subs, id, Mine(b, items, id)));
        GrowsTwice(b.subs, items, out.log, before.log, FlushAll(b, o, out, items, order).log);
      }
    }
  }

  lemma {:induction false} BatchGrows(b: Broker, o: Oracle, out: Out, items: seq<Content>, order: seq<SubId>)
    requires Inv(b) && ValidItems(items)
    ensures GrowsApt(b.subs, items, out.log, Batch(b, o, out, items, order).1.log)
  {
    hide Inv;
    hide ValidSubject;
    hide QueuePlan;
    hide FlushAll;
    hide DeliverAll;
    hide Apt;
    var out1, queued := out.(published := out.published + |items|), QueuePlan(b, items).1;
    PlanApt(b, items, items);
    DeliverAllGrows(b.subs, items, o, out1, queued);
    FlushAllGrows(b, o, DeliverAll(o, out1, queued), items, order);
    GrowsTwice(b.subs, items, out.log, DeliverAll(o, out1, queued).log, Batch(b, o, out, items, order).1.log);
  }

  /** Published subjects are parsed ones. */
  ghost predicate ValidOp(op: BrokerOp) {
    match op
    case PublishOp(c) => ValidSubject(c.subject)
    case PublishBatchOp(items, _) => ValidItems(items)
    case _ => true
  }

  lemma {:induction false} ApplyGrows(b: Broker, o: Oracle, out: Out, op: BrokerOp)
    requires Inv(b) && ValidOp(op)
    ensures GrowsApt(b.subs, Contents(op), out.log, Apply(b, o, out, op).1.log)
  {
    hide Inv;
    hide ValidSubject;
    hide ValidItems;
    hide Publish;
    hide PublishStr;
    hide Batch;
    hide Contents;
    hide Apt;
    OwnContents(op);
    match op
    case PublishOp(c) => PublishGrows(b, o, out, c);
    case PublishTextOp(_, _, _, _) => TextGrows(b, o, out, op);
    case PublishBatchOp(items, order) => BatchGrows(b, o, out, items, order);
    case _ =>
  }

  lemma {:induction false} OwnContents(op: BrokerOp)
    ensures op.PublishOp? ==> Contents(op) == [op.content]
    ensures op.PublishBatchOp? ==> Contents(op) == op.items
  {
  }

  // ---- over whole runs ----

  /** The attempt goes to somebody registered whose pattern matches, by the handle and connection they came with. */
  ghost predicate Expected(was: map<SubId, Subscriber>, cs: seq<Content>, a: Attempt) {
    && a.msg.sub in was
    && a.handle == was[a.msg.sub].handle && a.msg.conn == was[a.msg.sub].conn
    && a.msg.content in cs
    && MatchTokens(was[a.msg.sub].pattern.tokens, a.msg.content.subject.tokens)
  }

  /**
   After every legal run, whatever the next operation sends goes only to those who subscribed and have not
   left, whose pattern matches, by the handle and connection they subscribed with; the log so far stays.
   */
  lemma {:induction false} RunsSendToRegistered(o: Oracle, ops: seq<BrokerOp>, op: BrokerOp)
    requires Legal(o, ops) && ValidOp(op)
    ensures var (b, out) := Run(o, ops);
            var log := Apply(b, o, out, op).1.log;
            out.log <= log
            && forall i :: |out.log| <= i < |log| ==> Expected(Registered(ops), Contents(op), log[i].attempt)
  {
    hide Run;
    hide Apply;
    hide ValidOp;
    hide Legal;
    hide MatchTokens;
    hide Contents;
    hide Registered;
    var (b, out) := Run(o, ops);
    BrokerRuns.RunKeepsInv(o, ops);
    ApplyGrows(b, o, out, op);
    RunsRegister(o, ops);
  }

  /** A publish after a run reaches each matching subscriber outside groups once, and no other such one. */
  lemma {:induction false} RunsReachSubscribers(o: Oracle, ops: seq<BrokerOp>, c: Content, id: SubId)
    requires Legal(o, ops) && ValidSubject(c.subject)
    requires id in Registered(ops) && Registered(ops)[id].group.None?
    ensures Got(PublishAttempts(Run(o, ops).0, c), id)
         == if MatchTokens(Registered(ops)[id].pattern.tokens, c.subject.tokens) then [c] else []
  {
    hide Run;
    hide Legal;
    hide MatchTokens;
    hide PublishAttempts;
    var b := Run(o, ops).0;
    BrokerRuns.RunKeepsInv(o, ops);
    RunsRegister(o, ops);
    assert Holds(b, Subscriptions);
    assert SubOk(id, b.subs[id], b.keys);
    PublishFansOut(b, c, id);
  }

  lemma {:induction false} GoneStaysGone(ops: seq<BrokerOp>, op: BrokerOp, id: SubId)
    requires id <= Subscribes(ops) && id !in Registered(ops)
    ensures id <= Subscribes(ops + [op]) && id !in Registered(ops + [op])
  {
    assert (ops + [op])[..|ops|] == ops;
  }

  /** What `more` appended to the log has nothing for `id`. */
  ghost predicate SilentFor(was: seq<Entry>, log: seq<Entry>, id: SubId) {
    was <= log && forall i :: |was| <= i < |log| ==> log[i].attempt.msg.sub != id
  }

  lemma {:induction false} RunAppends(o: Oracle, ops: seq<BrokerOp>, op: BrokerOp)
    ensures Run(o, ops + [op]) == Apply(Run(o, ops).0, o, Run(o, ops).1, op)
    ensures Legal(o, ops + [op]) ==> Legal(o, ops)
  {
    hide Apply;
    assert (ops + [op])[..|ops|] == ops;
  }

  lemma {:induction false} LegalPrefix(o: Oracle, ops: seq<BrokerOp>, n: nat)
    requires Legal(o, ops) && n <= |ops|
    ensures Legal(o, ops[..n])
  {
    if n < |ops| {
      LegalPrefix(o, ops[..|ops| - 1], n);
      assert ops[..|ops| - 1][..n] == ops[..n];
    } else {
      assert ops[..n] == ops;
    }
  }

  /**
   Whoever unsubscribed or whose connection was removed by the first `n` operations of a run gets no attempt
   from any operation after them.
   */
  lemma {:induction false} GoneHearsNothing(o: Oracle, ops: seq<BrokerOp>, n: nat, id: SubId)
    requires Legal(o, ops) && n <= |ops| && forall i :: 0 <= i < |ops| ==> ValidOp(ops[i])
    requires id <= Subscribes(ops[..n]) && id !in Registered(ops[..n])
    ensures SilentFor(Run(o, ops[..n]).1.log, Run(o, ops).1.log, id)
    ensures id <= Subscribes(ops) && id !in Registered(ops)
  {
    hide Run;
    hide Apply;
    hide ValidOp;
    hide Registered;
    hide Expected;
    hide Contents;
    if n == |ops| {
      assert ops[..n] == ops;
    } else {
      var before, last := ops[..|ops| - 1], ops[|ops| - 1];
      assert before[..n] == ops[..n] && ops == before + [last];
      RunAppends(o, before, last);
      GoneHearsNothing(o, before, n, id);
      GoneStaysGone(before, last, id);
      RunsSendToRegistered(o, before, last);
      ExpectedIsRegistered(Registered(before), Contents(last), id);
    }
  }

  lemma {:induction false} ExpectedIsRegistered(was: map<SubId, Subscriber>, cs: seq<Content>, id: SubId)
    requires id !in was
    ensures forall a :: Expected(was, cs, a) ==> a.msg.sub != id
  {
  }

  /** An unsubscribe takes out its id, a removed connection every id that came with it, and nobody else. */
  lemma {:induction false} LeavingIsExact(ops: seq<BrokerOp>, id: SubId, conn: ConnId)
    ensures Registered(ops + [UnsubscribeOp(id)]) == Registered(ops) - {id}
    ensures forall i :: i in Registered(ops + [RemoveConnectionOp(conn)]) <==>
                        i in Registered(ops) && Registered(ops)[i].conn != conn
  {
    assert (ops + [UnsubscribeOp(id)])[..|ops|] == ops && (ops + [RemoveConnectionOp(conn)])[..|ops|] == ops;
  }

  // ---- the counters ----

  /** The messages a run was asked to publish. */
  function Published(ops: seq<BrokerOp>): nat {
    if ops == [] then 0
    else
      Published(ops[..|ops| - 1])
      + match ops[|ops| - 1]
        case PublishOp(_) => 1
        case PublishTextOp(_, _, _, _) => 1
        case PublishBatchOp(items, _) => |items|
        case _ => 0
  }

  /** The accepted attempts of a log. */
  function AcceptedIn(log: seq<Entry>): nat {
    if log == [] then 0 else AcceptedIn(log[..|log| - 1]) + if log[|log| - 1].status.Delivered? then 1 else 0
  }

  lemma {:induction false} AcceptedStep(log: seq<Entry>, e: Entry)
    ensures AcceptedIn(log + [e]) == AcceptedIn(log) + if e.status.Delivered? then 1 else 0
  {
    assert (log + [e])[..|log|] == log;
  }

  lemma {:induction false} DeliverAllAccepted(o: Oracle, out: Out, attempts: seq<Attempt>)
    ensures var r := DeliverAll(o, out, attempts);
            r.published == out.published && r.delivered - out.delivered == AcceptedIn(r.log) - AcceptedIn(out.log)
  {
    if attempts != [] {
      var before := DeliverAll(o, out, attempts[..|attempts| - 1]);
      var last := attempts[|attempts| - 1];
      DeliverAllAccepted(o, out, attempts[..|attempts| - 1]);
      AcceptedStep(before.log, Entry(last, o(before.log, last)));
    }
  }

  lemma {:induction false} DeliverBatchAccepted(o: Oracle, log: seq<Entry>, attempts: seq<Attempt>)
    ensures var (log', accepted) := DeliverBatch(o, log, attempts); accepted == AcceptedIn(log') - AcceptedIn(log)
    decreases |attempts|
  {
    if attempts != [] {
      var e := Entry(attempts[0], o(log, attempts[0]));
      AcceptedStep(log, e);
      if e.status.Delivered? {
        DeliverBatchAccepted(o, log + [e], attempts[1..]);
      }
    }
  }

  lemma {:induction false} FlushAllAccepted(b: Broker, o: Oracle, out: Out, items: seq<Content>, order: seq<SubId>)
    ensures var r := FlushAll(b, o, out, items, order);
            r.published == out.published && r.delivered - out.delivered == AcceptedIn(r.log) - AcceptedIn(out.log)
  {
    hide Mine;
    if order != [] {
      var id := order[|order| - 1];
      FlushAllAccepted(b, o, out, items, order[..|order| - 1]);
      var before := FlushAll(b, o, out, items, order[..|order| - 1]);
      if id in b.subs {
        DeliverBatchAccepted(o, before.log, ToAttempts(b.subs, id, Mine(b, items, id)));
      }
    }
  }

  lemma {:induction false} MatchesAccepted(b: Broker, o: Oracle, out: Out, c: Content, ids: seq<SubId>)
    ensures var r := DeliverMatches(b, o, out, c, ids).1;
            r.published == out.published && r.delivered - out.delivered == AcceptedIn(r.log) - AcceptedIn(out.log)
  {
    hide SelectAll;
    hide DeliverAll;
    var first := Attempts(b.subs, SelectAll(b.groups, Collapse(QueueRefs(b.subs, ids))).1, c);
    DeliverAllAccepted(o, out, first);
    DeliverAllAccepted(o, DeliverAll(o, out, first), Attempts(b.subs, FanoutIds(b.subs, ids), c));
  }

  lemma {:induction false} ApplyAccepted(b: Broker, o: Oracle, out: Out, op: BrokerOp)
    ensures var r := Apply(b, o, out, op).1;
            && r.delivered - out.delivered == AcceptedIn(r.log) - AcceptedIn(out.log)
            && r.published - out.published ==
               match op
               case PublishOp(_) => 1
               case PublishTextOp(_, _, _, _) => 1
               case PublishBatchOp(items, _) => |items|
               case _ => 0
  {
    hide DeliverMatches;
    hide DeliverAll;
    hide FlushAll;
    hide QueuePlan;
    hide ParseSubject;
    hide StrIds;
    hide MatchIds;
    match op
    case PublishOp(c) => MatchesAccepted(b, o, out.(published := out.published + 1), c, MatchIds(b.router, c.subject));
    case PublishTextOp(text, payload, reply, headers) =>
      var (b1, s) := RouteStr(b, text);
      if s.Some? {
        MatchesAccepted(b1, o, out.(published := out.published + 1), Content(s.value, payload, reply, headers),
                        StrIds(b, text, s.value));
      }
    case PublishBatchOp(items, order) =>
      var out1, queued := out.(published := out.published + |items|), QueuePlan(b, items).1;
      DeliverAllAccepted(o, out1, queued);
      FlushAllAccepted(b, o, DeliverAll(o, out1, queued), items, order);
    case _ =>
  }

  /** After every run the counters say how many messages were published and how many attempts accepted. */
  lemma {:induction false} RunsCount(o: Oracle, ops: seq<BrokerOp>)
    ensures Run(o, ops).1.published == Published(ops)
    ensures Run(o, ops).1.delivered == AcceptedIn(Run(o, ops).1.log)
  {
    hide Apply;
    if ops != [] {
      RunsCount(o, ops[..|ops| - 1]);
      var (b, out) := Run(o, ops[..|ops| - 1]);
      ApplyAccepted(b, o, out, ops[|ops| - 1]);
    }
  }

  // ---- the round-robin counters ----

  /** How many attempts of a log went to members of group `k`. */
  function Turns(log: seq<Entry>, subs: Subs, k: GroupKey): nat {
    GroupAttempts(AttemptsOf(log), subs, k)
  }

  lemma {:induction false} SelectionsTurn(b: Broker, o: Oracle, out: Out, refs: seq<KeyRef>, c: Content, k: GroupKey)
    requires GroupInv(b.subs, b.groups) && AllPopulated(b.groups, refs) && k in b.groups
    ensures var (groups, chosen) := SelectAll(b.groups, refs);
            var log := DeliverAll(o, out, Attempts(b.subs, chosen, c)).log;
            && Turns(log, b.subs, k) == Turns(out.log, b.subs, k) + Occurrences(refs, k)
            && k in groups && groups[k].index == RoundRobin.Advance(b.groups[k].index, Occurrences(refs, k))
  {
    hide SelectAll;
    hide DeliverAll;
    hide GroupInv;
    hide AllPopulated;
    var chosen := SelectAll(b.groups, refs).1;
    ChosenLive(b, refs);
    ChosenCount(b.subs, refs, chosen, c, k);
    DeliverAllLog(o, out, Attempts(b.subs, chosen, c));
    GroupAttemptsConcat(AttemptsOf(out.log), Attempts(b.subs, chosen, c), b.subs, k);
    SelectAdvances(b.groups, refs, k);
  }

  lemma {:induction false} FanoutTurnsNothing(subs: Subs, o: Oracle, out: Out, ids: seq<SubId>, c: Content, k: GroupKey)
    ensures Turns(DeliverAll(o, out, Attempts(subs, FanoutIds(subs, ids), c)).log, subs, k) == Turns(out.log, subs, k)
  {
    hide DeliverAll;
    var fan := FanoutIds(subs, ids);
    FanoutLaw(subs, ids);
    forall i | 0 <= i < |fan| ensures fan[i] in subs && subs[fan[i]].key.None? {
      assert fan[i] in fan;
    }
    FanoutCount(subs, fan, c, k);
    DeliverAllLog(o, out, Attempts(subs, fan, c));
    GroupAttemptsConcat(AttemptsOf(out.log), Attempts(subs, fan, c), subs, k);
  }

  /** The counter of group `k` has moved on by the attempts made to its members, and by nothing else. */
  ghost predicate TurnsCounted(b: Broker, out: Out, b': Broker, out': Out, k: GroupKey) {
    && k in b.groups && k in b'.groups && Turns(out.log, b.subs, k) <= Turns(out'.log, b.subs, k)
    && b'.groups[k].index
       == RoundRobin.Advance(b.groups[k].index, Turns(out'.log, b.subs, k) - Turns(out.log, b.subs, k))
  }

  lemma {:induction false} MatchesTurn(b: Broker, o: Oracle, out: Out, c: Content, ids: seq<SubId>, k: GroupKey)
    requires Inv(b) && k in b.groups
    ensures var (b', out') := DeliverMatches(b, o, out, c, ids); TurnsCounted(b, out, b', out', k)
  {
    hide Inv;
    hide SelectAll;
    hide DeliverAll;
    hide Turns;
    var refs := Collapse(QueueRefs(b.subs, ids));
    RefsOk(b, ids);
    GroupsIn(b);
    SelectionsTurn(b, o, out, refs, c, k);
    var mid := DeliverAll(o, out, Attempts(b.subs, SelectAll(b.groups, refs).1, c));
    FanoutTurnsNothing(b.subs, o, mid, ids, c, k);
  }

  lemma {:induction false} GroupsIn(b: Broker)
    requires Inv(b)
    ensures GroupInv(b.subs, b.groups)
  {
    assert Holds(b, QueueGroups);
  }

  lemma {:induction false} NoTurns(b: Broker, out: Out, k: GroupKey)
    requires k in b.groups
    ensures TurnsCounted(b, out, b, out, k)
  {
  }

  lemma {:induction false} StillThere(b: Broker, groups: Groups, k: GroupKey)
    requires k in b.groups && SameMembers(groups, b.groups)
    ensures k in groups
  {
  }

  lemma {:induction false} TurnsThen(b: Broker, out: Out, b1: Broker, mid: Out, b2: Broker, out2: Out, k: GroupKey)
    requires TurnsCounted(b, out, b1, mid, k) && TurnsCounted(b1, mid, b2, out2, k) && b1.subs == b.subs
    ensures TurnsCounted(b, out, b2, out2, k)
  {
    hide Turns;
    hide RoundRobin.Advance;
    var n := Turns(mid.log, b.subs, k) - Turns(out.log, b.subs, k);
    var m := Turns(out2.log, b.subs, k) - Turns(mid.log, b.subs, k);
    RoundRobin.AdvanceAdds(b.groups[k].index, n, m);
  }

  lemma {:induction false} SelectionsCounted(b: Broker, o: Oracle, out: Out, refs: seq<KeyRef>, c: Content, k: GroupKey)
    requires GroupInv(b.subs, b.groups) && AllPopulated(b.groups, refs) && k in b.groups
    ensures var (groups, chosen) := SelectAll(b.groups, refs);
            TurnsCounted(b, out, b.(groups := groups), DeliverAll(o, out, Attempts(b.subs, chosen, c)), k)
  {
    hide SelectAll;
    hide DeliverAll;
    hide Turns;
    hide GroupInv;
    hide AllPopulated;
    SelectionsTurn(b, o, out, refs, c, k);
  }

  lemma {:induction false} PlanTurns(b: Broker, o: Oracle, out: Out, items: seq<Content>, k: GroupKey)
    requires Inv(b) && k in b.groups
    ensures var (groups, queued) := QueuePlan(b, items);
            TurnsCounted(b, out, b.(groups := groups), DeliverAll(o, out, queued), k)
  {
    hide Inv;
    hide SelectAll;
    hide TurnsCounted;
    hide Attempts;
    hide MatchIds;
    if items == [] {
      NoTurns(b, out, k);
    } else {
      var before, c := items[..|items| - 1], items[|items| - 1];
      PlanTurns(b, o, out, before, k);
      PlanKeepsMembers(b, before);
      var (groups, tried) := QueuePlan(b, before);
      var refs := QueueRefs(b.subs, Ids(b, c));
      RefsPopulated(b, groups, refs, Ids(b, c));
      var mid := DeliverAll(o, out, tried);
      StillThere(b, groups, k);
      SelectionsCounted(b.(groups := groups), o, mid, refs, c, k);
      DeliverAllConcat(o, out, tried, Attempts(b.subs, SelectAll(groups, refs).1, c));
      TurnsThen(b, out, b.(groups := groups), mid, b.(groups := SelectAll(groups, refs).0),
                DeliverAll(o, mid, Attempts(b.subs, SelectAll(groups, refs).1, c)), k);
    }
  }

  lemma {:induction false} FlushTurnsNothing(
    subs: Subs, o: Oracle, log: seq<Entry>, attempts: seq<Attempt>, k: GroupKey)
    requires forall i :: 0 <= i < |attempts| ==> attempts[i].msg.sub !in GroupIds(subs, k)
    ensures Turns(DeliverBatch(o, log, attempts).0, subs, k) == Turns(log, subs, k)
    decreases |attempts|
  {
    hide GroupIds;
    if attempts != [] {
      var e := Entry(attempts[0], o(log, attempts[0]));
      assert AttemptsOf(log + [e]) == AttemptsOf(log) + [attempts[0]];
      assert (AttemptsOf(log) + [attempts[0]])[..|log|] == AttemptsOf(log);
      if e.status.Delivered? {
        FlushTurnsNothing(subs, o, log + [e], attempts[1..], k);
      }
    }
  }

  lemma {:induction false} FlushAllTurnsNothing(
    b: Broker, o: Oracle, out: Out, items: seq<Content>, order: seq<SubId>, k: GroupKey)
    requires forall id :: id in order && id in b.subs ==> b.subs[id].key.None?
    ensures Turns(FlushAll(b, o, out, items, order).log, b.subs, k) == Turns(out.log, b.subs, k)
  {
    hide Turns;
    hide Mine;
    if order != [] {
      var id := order[|order| - 1];
      assert id in order;
      FlushAllTurnsNothing(b, o, out, items, order[..|order| - 1], k);
      var before := FlushAll(b, o, out, items, order[..|order| - 1]);
      if id in b.subs {
        FlushTurnsNothing(b.subs, o, before.log, ToAttempts(b.subs, id, Mine(b, items, id)), k);
      }
    }
  }

  lemma {:induction false} BatchTurns(
    b: Broker, o: Oracle, out: Out, items: seq<Content>, order: seq<SubId>, k: GroupKey)
    requires Inv(b) && k in b.groups && FlushOrder(b, items, order)
    ensures var (b', out') := Batch(b, o, out, items, order); TurnsCounted(b, out, b', out', k)
  {
    hide Inv;
    hide QueuePlan;
    hide DeliverAll;
    hide FlushAll;
    hide Turns;
    var out1, queued := out.(published := out.published + |items|), QueuePlan(b, items).1;
    PlanTurns(b, o, out1, items, k);
    forall id | id in order && id in b.subs ensures b.subs[id].key.None? {
      assert FlushedIff(b, items, order, id);
    }
    FlushAllTurnsNothing(b, o, DeliverAll(o, out1, queued), items, order, k);
  }

  /** A batch is flushed in some order of its pending subscriptions. */
  ghost predicate FlushesAll(b: Broker, op: BrokerOp) {
    op.PublishBatchOp? ==> FlushOrder(b, op.items, op.order)
  }

  /**
   A group's counter moves on by one for every attempt to one of its members, by whichever way of publishing,
   and by nothing else: joining and leaving a group leave it where it is.
   */
  lemma {:induction false} CountersCountTurns(b: Broker, o: Oracle, out: Out, op: BrokerOp, k: GroupKey)
    requires Inv(b) && k in b.groups && FlushesAll(b, op) && !op.RemoveConnectionOp?
    ensures var (b', out') := Apply(b, o, out, op); TurnsCounted(b, out, b', out', k)
  {
    hide Inv;
    hide DeliverMatches;
    hide Batch;
    hide FlushOrder;
    hide ParseSubject;
    hide StrIds;
    hide MatchIds;
    hide InsertEngine;
    hide RemoveEngine;
    match op
    case PublishOp(c) => MatchesTurn(b, o, out.(published := out.published + 1), c, MatchIds(b.router, c.subject), k);
    case PublishTextOp(text, payload, reply, headers) =>
      CacheIsTransparent(b, text);
      var (b1, s) := RouteStr(b, text);
      if s.Some? {
        MatchesTurn(b1, o, out.(published := out.published + 1), Content(s.value, payload, reply, headers),
                    StrIds(b, text, s.value), k);
      }
    case PublishBatchOp(items, order) => BatchTurns(b, o, out, items, order, k);
    case _ =>
  }

  /** A group that nobody was in starts from zero. */
  lemma {:induction false} NewGroupsStartAtZero(
    b: Broker, conn: ConnId, p: SubjectPattern, group: Option<string>, handle: HandleId, addr: nat, k: GroupKey)
    requires k !in b.groups
    ensures var b' := Subscribe(b, conn, p, group, handle, addr);
            k in b'.groups <==> group.Some? && k == GroupKey(p.raw, group.value)
    ensures var b' := Subscribe(b, conn, p, group, handle, addr); k in b'.groups ==> b'.groups[k].index == 0
  {
    hide InsertEngine;
  }

  /**
   Removing a connection ends exactly the groups it was the last to leave; the others keep their counters.
   */
  lemma {:induction false} GroupsEndIff(b: Broker, conn: ConnId, k: GroupKey)
    requires Inv(b) && k in b.groups
    ensures var b' := RemoveConnection(b, conn);
            && (k in b'.groups <==>
                (forall id :: id in GroupIds(b.subs, k) ==> b.subs[id].conn != conn)
                || exists id :: id in GroupIds(b.subs, k) && b.subs[id].conn != conn)
            && (k in b'.groups ==> b'.groups[k].index == b.groups[k].index)
  {
    hide Inv;
    hide RemoveMany;
    var ids := ConnList(b.byConn, conn);
    ConnListLive(b, conn);
    TouchedIff(b, ids, k);
    GroupsIn(b);
    assert Indexes(Members(b.groups, k), GroupIds(b.subs, k));
    var left := WithoutAll(b.groups[k].members, ids);
    forall id ensures id in left <==> id in GroupIds(b.subs, k) && b.subs[id].conn != conn {
    }
    if left != [] {
      assert left[0] in left;
    }
  }

  lemma {:induction false} TouchedIff(b: Broker, ids: seq<SubId>, k: GroupKey)
    ensures k in Touched(b.subs, ids) <==> exists id :: id in ids && id in GroupIds(b.subs, k)
  {
  }
}
