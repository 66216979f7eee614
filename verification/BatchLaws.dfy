/**
 What publishing a batch guarantees: every subscription gets its matching items in order, every matched
 delivery is counted, and a full channel accepts as many as one by one.
 */
module BatchLaws {
  import opened Subjects
  import opened Seqs
  import opened Tries
  import opened Delivery
  import opened BrokerState
  import opened Publishing
  import opened Batching

  // ---- the fan-out of a batch ----

  /** The group phase of a batch in a consistent broker chooses live group members only. */
  lemma {:induction false} PlanChosen(b: Broker, groups: Groups, c: Content)
    requires Inv(b) && SameMembers(groups, b.groups)
    ensures var refs := QueueRefs(b.subs, Ids(b, c));
            var chosen := SelectAll(groups, refs).1;
            ChosenFrom(b.subs, refs, chosen)
            && forall i :: 0 <= i < |chosen| ==> chosen[i] in b.subs && b.subs[chosen[i]].key.Some?
  {
    var refs := QueueRefs(b.subs, Ids(b, c));
    RefsOk(b, Ids(b, c));
    PopulatedStays(groups, b.groups, refs);
    assert Holds(b, QueueGroups);
    GroupInvStays(b, groups);
    ChosenLive(b.(groups := groups), refs);
  }

  lemma {:induction false} QueuedSkipsFanout(b: Broker, items: seq<Content>, id: SubId)
    requires Inv(b) && (id in b.subs ==> b.subs[id].key.None?)
    ensures Got(QueuePlan(b, items).1, id) == []
  {
    if items != [] {
      var before, c := items[..|items| - 1], items[|items| - 1];
      QueuedSkipsFanout(b, before, id);
      PlanKeepsMembers(b, before);
      var (groups, tried) := QueuePlan(b, before);
      PlanChosen(b, groups, c);
      var chosen := SelectAll(groups, QueueRefs(b.subs, Ids(b, c))).1;
      GotOnce(b.subs, chosen, c, id);
      GotConcat(tried, Attempts(b.subs, chosen, c), id);
    }
  }

  function FlushAttempts(b: Broker, items: seq<Content>, order: seq<SubId>): seq<Attempt> {
    if order == [] then []
    else
      var id := order[|order| - 1];
      FlushAttempts(b, items, order[..|order| - 1])
      + if id in b.subs then ToAttempts(b.subs, id, Mine(b, items, id)) else []
  }

  lemma {:induction false} FlushAllAccepting(b: Broker, o: Oracle, out: Out, items: seq<Content>, order: seq<SubId>)
    requires AlwaysAccepts(o)
    ensures FlushAll(b, o, out, items, order) == DeliverAll(o, out, FlushAttempts(b, items, order))
  {
    if order != [] {
      var before, id := order[..|order| - 1], order[|order| - 1];
      FlushAllAccepting(b, o, out, items, before);
      if id in b.subs {
        var mine := ToAttempts(b.subs, id, Mine(b, items, id));
        FlushAccepting(o, FlushAll(b, o, out, items, before), mine);
        DeliverAllConcat(o, out, FlushAttempts(b, items, before), mine);
      } else {
        assert FlushAttempts(b, items, order) == FlushAttempts(b, items, before);
      }
    }
  }

  lemma {:induction false} GotBatch(subs: Subs, x: SubId, cs: seq<Content>, id: SubId)
    requires x in subs
    ensures Got(ToAttempts(subs, x, cs), id) == if x == id then cs else []
  {
    if cs != [] {
      GotBatch(subs, x, cs[..|cs| - 1], id);
      assert ToAttempts(subs, x, cs)[..|cs| - 1] == ToAttempts(subs, x, cs[..|cs| - 1]);
    }
  }

  lemma {:induction false} GotFlush(b: Broker, items: seq<Content>, order: seq<SubId>, id: SubId)
    requires NoDup(order) && forall x :: x in order ==> x in b.subs
    ensures Got(FlushAttempts(b, items, order), id) == if id in order then Mine(b, items, id) else []
  {
    if order != [] {
      var before, last := order[..|order| - 1], order[|order| - 1];
      assert order == before + [last] && last in order && last !in before;
      GotFlush(b, items, before, id);
      var mine := ToAttempts(b.subs, last, Mine(b, items, last));
      GotBatch(b.subs, last, Mine(b, items, last), id);
      GotConcat(FlushAttempts(b, items, before), mine, id);
    }
  }

  /** With accepting handles, a batch delivers its planned group attempts and then each subscription's own items. */
  lemma {:induction false} BatchOut(b: Broker, o: Oracle, out: Out, items: seq<Content>, order: seq<SubId>)
    requires AlwaysAccepts(o)
    ensures var out1 := out.(published := out.published + |items|);
            Batch(b, o, out, items, order).1
            == DeliverAll(o, DeliverAll(o, out1, QueuePlan(b, items).1), FlushAttempts(b, items, order))
  {
    hide DeliverAll, FlushAll, FlushAttempts, QueuePlan, AlwaysAccepts;
    var out1 := out.(published := out.published + |items|);
    FlushAllAccepting(b, o, DeliverAll(o, out1, QueuePlan(b, items).1), items, order);
  }

  lemma {:induction false} BatchReceived(
    b: Broker, o: Oracle, out: Out, items: seq<Content>, order: seq<SubId>, id: SubId)
    requires AlwaysAccepts(o)
    ensures Received(Batch(b, o, out, items, order).1.log, id)
         == Received(out.log, id) + Got(QueuePlan(b, items).1, id) + Got(FlushAttempts(b, items, order), id)
  {
    var out1 := out.(published := out.published + |items|);
    var queued := QueuePlan(b, items).1;
    BatchOut(b, o, out, items, order);
    ReceivedAll(o, out1, queued, id);
    ReceivedAll(o, DeliverAll(o, out1, queued), FlushAttempts(b, items, order), id);
  }

  lemma {:induction false} FlushedForMe(b: Broker, items: seq<Content>, order: seq<SubId>, id: SubId)
    requires FlushOrder(b, items, order) && id in b.subs
    ensures Got(FlushAttempts(b, items, order), id) == if b.subs[id].key.None? then Mine(b, items, id) else []
  {
    forall x | x in order ensures x in b.subs {
      assert FlushedIff(b, items, order, x);
    }
    assert FlushedIff(b, items, order, id);
    GotFlush(b, items, order, id);
  }

  /** Subscription `id` is outside groups, or its group's rounds for the batch are whole. */
  ghost predicate Servable(b: Broker, items: seq<Content>, id: SubId) {
    && id in b.subs
    && (b.subs[id].key.Some? ==> WholeRounds(b.groups, b.subs[id].key.value.key, |Mine(b, items, id)|))
  }

  /**
   With accepting handles, a batch gives every live subscription, in a group or not, exactly the items that
   match it, in order, whatever order the pending map is flushed in.
   */
  lemma {:induction false} BatchDeliversMine(
    b: Broker, o: Oracle, out: Out, items: seq<Content>, order: seq<SubId>, id: SubId)
    requires Inv(b) && ValidItems(items) && AlwaysAccepts(o) && FlushOrder(b, items, order)
    requires Servable(b, items, id)
    ensures Received(Batch(b, o, out, items, order).1.log, id) == Received(out.log, id) + Mine(b, items, id)
  {
    QueuedForMe(b, items, id);
    FlushedForMe(b, items, order, id);
    BatchReceived(b, o, out, items, order, id);
    ConcatEither(Received(out.log, id), Got(QueuePlan(b, items).1, id),
                 Got(FlushAttempts(b, items, order), id), Mine(b, items, id));
  }

  lemma {:induction false} QueuedForMe(b: Broker, items: seq<Content>, id: SubId)
    requires Inv(b) && ValidItems(items) && Servable(b, items, id)
    ensures Got(QueuePlan(b, items).1, id) == if b.subs[id].key.Some? then Mine(b, items, id) else []
  {
    if b.subs[id].key.Some? {
      BatchReachesEveryMember(b, items, b.subs[id].key.value.key, id);
    } else {
      QueuedSkipsFanout(b, items, id);
    }
  }

  // ---- one by one ----

  lemma {:induction false} PublishAllKeeps(b: Broker, o: Oracle, out: Out, items: seq<Content>)
    requires Inv(b)
    ensures var b' := PublishAll(b, o, out, items).0;
            Inv(b') && SameMembers(b'.groups, b.groups) && b' == b.(groups := b'.groups)
  {
    if items != [] {
      var (b1, out1) := PublishAll(b, o, out, items[..|items| - 1]);
      PublishAllKeeps(b, o, out, items[..|items| - 1]);
      PublishKeepsInv(b1, o, out1, items[|items| - 1]);
      SelectKeepsMembers(b1.groups, Collapse(QueueRefs(b1.subs, Ids(b1, items[|items| - 1]))));
    }
  }

  lemma {:induction false} PublishReceived(b: Broker, o: Oracle, out: Out, c: Content, id: SubId)
    requires AlwaysAccepts(o)
    ensures Received(Publish(b, o, out, c).1.log, id) == Received(out.log, id) + Got(PublishAttempts(b, c), id)
  {
    PublishLog(b, o, out, c);
    ReceivedAll(o, out.(published := out.published + 1), PublishAttempts(b, c), id);
  }

  lemma {:induction false} PublishNextDelivers(b: Broker, b1: Broker, c: Content, id: SubId)
    requires Inv(b1) && b1 == b.(groups := b1.groups) && ValidSubject(c.subject)
    requires id in b.subs && b.subs[id].key.None?
    ensures Got(PublishAttempts(b1, c), id) == if id in Ids(b, c) then [c] else []
  {
    assert b1.subs == b.subs && b1.router == b.router;
    PublishFansOut(b1, c, id);
    MatchScan(b1, c.subject);
  }

  lemma {:induction false} PublishAllDeliversMine(b: Broker, o: Oracle, out: Out, items: seq<Content>, id: SubId)
    requires Inv(b) && ValidItems(items) && AlwaysAccepts(o) && id in b.subs && b.subs[id].key.None?
    ensures Received(PublishAll(b, o, out, items).1.log, id) == Received(out.log, id) + Mine(b, items, id)
  {
    if items != [] {
      var before, c := items[..|items| - 1], items[|items| - 1];
      assert ValidItems(before) && ValidSubject(c.subject);
      PublishAllDeliversMine(b, o, out, before, id);
      PublishAllKeeps(b, o, out, before);
      var (b1, out1) := PublishAll(b, o, out, before);
      PublishNextDelivers(b, b1, c, id);
      PublishReceived(b1, o, out1, c, id);
      ConcatAssoc(Received(out.log, id), Mine(b, before, id), Got(PublishAttempts(b1, c), id));
    }
  }

  // ---- conservation ----

  /** The matched subscriptions of a batch, summed over its items. */
  function Total(b: Broker, items: seq<Content>): nat {
    if items == [] then 0 else Total(b, items[..|items| - 1]) + |Ids(b, items[|items| - 1])|
  }

  function FanoutTotal(b: Broker, items: seq<Content>): nat {
    if items == [] then 0
    else FanoutTotal(b, items[..|items| - 1]) + |FanoutIds(b.subs, Ids(b, items[|items| - 1]))|
  }

  /** The pending messages, summed over the subscriptions of the flush order. */
  function Pending(b: Broker, items: seq<Content>, order: seq<SubId>): nat {
    if order == [] then 0
    else Pending(b, items, order[..|order| - 1]) + |Mine(b, items, order[|order| - 1])|
  }

  lemma {:induction false} QueuedCount(b: Broker, items: seq<Content>)
    requires Inv(b) && ValidItems(items)
    ensures |QueuePlan(b, items).1| + FanoutTotal(b, items) == Total(b, items)
  {
    if items != [] {
      var before, c := items[..|items| - 1], items[|items| - 1];
      assert ValidItems(before);
      QueuedCount(b, before);
      PlanKeepsMembers(b, before);
      var groups := QueuePlan(b, before).0;
      PlanChosen(b, groups, c);
      AttemptsShape(b.subs, SelectAll(groups, QueueRefs(b.subs, Ids(b, c))).1, c);
      MatchScan(b, c.subject);
      SplitCount(b.subs, Ids(b, c));
    }
  }

  lemma {:induction false} SplitCount(subs: Subs, ids: seq<SubId>)
    requires forall id :: id in ids ==> id in subs
    ensures |QueueIds(subs, ids)| + |FanoutIds(subs, ids)| == |ids|
  {
    if ids != [] {
      SplitCount(subs, ids[..|ids| - 1]);
      assert ids[|ids| - 1] in ids;
    }
  }

  function Overlap(order: seq<SubId>, ids: seq<SubId>): nat {
    if order == [] then 0 else Overlap(order[..|order| - 1], ids) + if order[|order| - 1] in ids then 1 else 0
  }

  function Common(order: seq<SubId>, ids: seq<SubId>): set<SubId> {
    set id | id in order && id in ids
  }

  lemma {:induction false} CommonAppend(order: seq<SubId>, last: SubId, ids: seq<SubId>)
    requires last !in order
    ensures |Common(order + [last], ids)| == |Common(order, ids)| + if last in ids then 1 else 0
  {
    assert Common(order + [last], ids) == Common(order, ids) + if last in ids then {last} else {};
  }

  lemma {:induction false} OverlapSize(order: seq<SubId>, ids: seq<SubId>)
    requires NoDup(order)
    ensures Overlap(order, ids) == |Common(order, ids)|
  {
    if order != [] {
      var before, last := order[..|order| - 1], order[|order| - 1];
      OverlapSize(before, ids);
      CommonAppend(before, last, ids);
      assert order == before + [last];
    }
  }

  lemma {:induction false} PendingAppend(b: Broker, items: seq<Content>, order: seq<SubId>)
    requires items != []
    ensures Pending(b, items, order)
         == Pending(b, items[..|items| - 1], order) + Overlap(order, Ids(b, items[|items| - 1]))
  {
    if order != [] {
      PendingAppend(b, items, order[..|order| - 1]);
    }
  }

  lemma {:induction false} PendingNothing(b: Broker, order: seq<SubId>)
    ensures Pending(b, [], order) == 0
  {
    if order != [] {
      PendingNothing(b, order[..|order| - 1]);
    }
  }

  /** `order` lists fan-out subscriptions only, each once. */
  ghost predicate FanoutOrder(b: Broker, order: seq<SubId>) {
    NoDup(order) && forall id :: id in order ==> id in b.subs && b.subs[id].key.None?
  }

  ghost predicate Covers(b: Broker, items: seq<Content>, order: seq<SubId>) {
    forall i :: 0 <= i < |items| ==> CoversItem(b, items[i], order)
  }

  ghost predicate CoversItem(b: Broker, c: Content, order: seq<SubId>) {
    forall id :: id in FanoutIds(b.subs, Ids(b, c)) ==> id in order
  }

  lemma {:induction false} OverlapIsFanout(b: Broker, c: Content, order: seq<SubId>)
    requires Inv(b) && ValidSubject(c.subject) && FanoutOrder(b, order) && CoversItem(b, c, order)
    ensures Overlap(order, Ids(b, c)) == |FanoutIds(b.subs, Ids(b, c))|
  {
    MatchScan(b, c.subject);
    FanoutLaw(b.subs, Ids(b, c));
    OverlapSize(order, Ids(b, c));
    NoDupSize(FanoutIds(b.subs, Ids(b, c)), Common(order, Ids(b, c)));
  }

  /** Counting the fan-out by item or by subscription gives the same number. */
  lemma {:induction false} PendingIsFanout(b: Broker, items: seq<Content>, order: seq<SubId>)
    requires Inv(b) && ValidItems(items) && FanoutOrder(b, order) && Covers(b, items, order)
    ensures Pending(b, items, order) == FanoutTotal(b, items)
  {
    if items == [] {
      PendingNothing(b, order);
    } else {
      var before, c := items[..|items| - 1], items[|items| - 1];
      assert ValidItems(before) && Covers(b, before, order);
      PendingIsFanout(b, before, order);
      PendingAppend(b, items, order);
      OverlapIsFanout(b, c, order);
    }
  }

  lemma {:induction false} MineMember(b: Broker, items: seq<Content>, i: nat, id: SubId)
    requires i < |items| && id in Ids(b, items[i])
    ensures Mine(b, items, id) != []
  {
    if i < |items| - 1 {
      assert items[..|items| - 1][i] == items[i];
      MineMember(b, items[..|items| - 1], i, id);
    }
  }

  lemma {:induction false} FlushOrderCovers(b: Broker, items: seq<Content>, order: seq<SubId>)
    requires Inv(b) && ValidItems(items) && FlushOrder(b, items, order)
    ensures Pending(b, items, order) == FanoutTotal(b, items)
  {
    forall i | 0 <= i < |items| ensures CoversItem(b, items[i], order) {
      FanoutLaw(b.subs, Ids(b, items[i]));
      forall id | id in FanoutIds(b.subs, Ids(b, items[i])) ensures id in order {
        MineMember(b, items, i, id);
        assert FlushedIff(b, items, order, id);
      }
    }
    forall id | id in order ensures id in b.subs && b.subs[id].key.None? {
      assert FlushedIff(b, items, order, id);
    }
    PendingIsFanout(b, items, order);
  }

  /** Everyone to be flushed is registered and has something pending. */
  ghost predicate Flushable(b: Broker, items: seq<Content>, order: seq<SubId>) {
    forall i :: 0 <= i < |order| ==> order[i] in b.subs && Mine(b, items, order[i]) != []
  }

  lemma {:induction false} FlushOrderIsFlushable(b: Broker, items: seq<Content>, order: seq<SubId>)
    requires FlushOrder(b, items, order)
    ensures Flushable(b, items, order)
  {
    forall i | 0 <= i < |order| ensures order[i] in b.subs && Mine(b, items, order[i]) != [] {
      assert order[i] in order && FlushedIff(b, items, order, order[i]);
    }
  }

  lemma {:induction false} FlushCounts(b: Broker, o: Oracle, out: Out, items: seq<Content>, order: seq<SubId>)
    requires Flushable(b, items, order)
    ensures var out' := FlushAll(b, o, out, items, order);
            out'.delivered + out'.dropped == out.delivered + out.dropped + Pending(b, items, order)
            && out'.published == out.published
  {
    if order != [] {
      FlushCounts(b, o, out, items, order[..|order| - 1]);
    }
  }

  /**
   Conservation, for every behaviour of the handles and every flush order: a batch adds to delivered plus
   dropped exactly the number of matched subscriptions, summed over its items.
   */
  lemma {:induction false} BatchConserves(b: Broker, o: Oracle, out: Out, items: seq<Content>, order: seq<SubId>)
    requires Inv(b) && ValidItems(items) && FlushOrder(b, items, order)
    ensures var out' := Batch(b, o, out, items, order).1;
            out'.delivered + out'.dropped == out.delivered + out.dropped + Total(b, items)
            && out'.published == out.published + |items|
  {
    FlushOrderIsFlushable(b, items, order);
    BatchCounts(b, o, out, items, order);
    FlushOrderCovers(b, items, order);
    QueuedCount(b, items);
  }

  lemma {:induction false} BatchCounts(b: Broker, o: Oracle, out: Out, items: seq<Content>, order: seq<SubId>)
    requires Flushable(b, items, order)
    ensures var out' := Batch(b, o, out, items, order).1;
            out'.delivered + out'.dropped
            == out.delivered + out.dropped + |QueuePlan(b, items).1| + Pending(b, items, order)
            && out'.published == out.published + |items|
  {
    hide QueuePlan;
    hide FlushAll;
    hide DeliverAll;
    hide Pending;
    hide Flushable;
    var out1 := out.(published := out.published + |items|);
    var queued := QueuePlan(b, items).1;
    var mid := DeliverAll(o, out1, queued);
    DeliverAllCounts(o, out1, queued);
    FlushCounts(b, o, mid, items, order);
    assert Batch(b, o, out, items, order).1 == FlushAll(b, o, mid, items, order);
  }

  // ---- a shared bounded channel ----

  /** Every match of the batch is outside groups and behind handle `h`. */
  ghost predicate AllBehind(b: Broker, items: seq<Content>, h: HandleId) {
    forall i, id :: 0 <= i < |items| && id in Ids(b, items[i]) ==>
                    id in b.subs && b.subs[id].key.None? && b.subs[id].handle == h
  }

  lemma {:induction false} NoQueueIds(subs: Subs, ids: seq<SubId>)
    requires forall id :: id in ids ==> id in subs && subs[id].key.None?
    ensures QueueIds(subs, ids) == [] && FanoutIds(subs, ids) == ids
  {
    if ids != [] {
      assert ids[|ids| - 1] in ids;
      NoQueueIds(subs, ids[..|ids| - 1]);
    }
  }

  lemma {:induction false} NothingQueued(b: Broker, items: seq<Content>, h: HandleId)
    requires AllBehind(b, items, h)
    ensures QueuePlan(b, items) == (b.groups, []) && FanoutTotal(b, items) == Total(b, items)
  {
    if items != [] {
      var before, c := items[..|items| - 1], items[|items| - 1];
      BehindPrefix(b, items, h);
      NothingQueued(b, before, h);
      NoQueueIds(b.subs, Ids(b, c));
    }
  }

  lemma {:induction false} MineBehind(b: Broker, items: seq<Content>, h: HandleId, id: SubId)
    requires AllBehind(b, items, h) && Mine(b, items, id) != [] && id in b.subs
    ensures b.subs[id].handle == h
  {
    if items != [] {
      var before, c := items[..|items| - 1], items[|items| - 1];
      assert AllBehind(b, before, h) by {
        assert forall i :: 0 <= i < |before| ==> before[i] == items[i];
      }
      if id in Ids(b, c) {
        assert items[|items| - 1] == c;
      } else {
        MineBehind(b, before, h, id);
      }
    }
  }

  lemma {:induction false} FlushAllBounded(
    b: Broker, o: Oracle, out: Out, items: seq<Content>, order: seq<SubId>, h: HandleId, cap: nat)
    requires BoundedChannel(o, h, cap) && Accepted(out.log, h) <= cap && AllBehind(b, items, h)
    requires Flushable(b, items, order)
    ensures Filled(out, FlushAll(b, o, out, items, order), Pending(b, items, order), h, cap)
  {
    if order != [] {
      var before, id := order[..|order| - 1], order[|order| - 1];
      FlushAllBounded(b, o, out, items, before, h, cap);
      var mid := FlushAll(b, o, out, items, before);
      var mine := ToAttempts(b.subs, id, Mine(b, items, id));
      MineAllTo(b, items, h, id);
      FlushBounded(o, mid, mine, h, cap);
      FilledTwice(out, mid, Flush(o, mid, mine), Pending(b, items, before), |mine|, h, cap);
    }
  }

  lemma {:induction false} MineAllTo(b: Broker, items: seq<Content>, h: HandleId, id: SubId)
    requires AllBehind(b, items, h) && Mine(b, items, id) != [] && id in b.subs
    ensures AllTo(ToAttempts(b.subs, id, Mine(b, items, id)), h)
  {
    MineBehind(b, items, h, id);
  }

  /** Every match of the message is outside groups and behind handle `h`. */
  ghost predicate ItemBehind(b: Broker, c: Content, h: HandleId) {
    forall id :: id in Ids(b, c) ==> id in b.subs && b.subs[id].key.None? && b.subs[id].handle == h
  }

  lemma {:induction false} PublishFanoutOnly(b: Broker, o: Oracle, out: Out, c: Content, h: HandleId)
    requires ItemBehind(b, c, h)
    ensures Publish(b, o, out, c)
         == (b, DeliverAll(o, out.(published := out.published + 1), Attempts(b.subs, Ids(b, c), c)))
  {
    NoQueueIds(b.subs, Ids(b, c));
    assert RefsOf(b.subs, []) == [];
    assert SelectAll(b.groups, []) == (b.groups, []);
  }

  lemma {:induction false} IdsAllTo(b: Broker, c: Content, h: HandleId)
    requires ItemBehind(b, c, h)
    ensures AllTo(Attempts(b.subs, Ids(b, c), c), h) && |Attempts(b.subs, Ids(b, c), c)| == |Ids(b, c)|
  {
    var ids := Ids(b, c);
    forall i | 0 <= i < |ids| ensures ids[i] in b.subs && b.subs[ids[i]].handle == h {
      assert ids[i] in ids;
    }
    AttemptsShape(b.subs, ids, c);
  }

  lemma {:induction false} PublishBounded(b: Broker, o: Oracle, out: Out, c: Content, h: HandleId, cap: nat)
    requires BoundedChannel(o, h, cap) && Accepted(out.log, h) <= cap && ItemBehind(b, c, h)
    ensures Publish(b, o, out, c).0 == b
    ensures Filled(out, Publish(b, o, out, c).1, |Ids(b, c)|, h, cap)
  {
    PublishFanoutOnly(b, o, out, c, h);
    IdsAllTo(b, c, h);
    var out1 := out.(published := out.published + 1);
    DeliverAllBounded(o, out1, Attempts(b.subs, Ids(b, c), c), h, cap);
    FilledFrom(out, out1, DeliverAll(o, out1, Attempts(b.subs, Ids(b, c), c)), |Ids(b, c)|, h, cap);
  }

  lemma {:induction false} BehindPrefix(b: Broker, items: seq<Content>, h: HandleId)
    requires AllBehind(b, items, h) && items != []
    ensures AllBehind(b, items[..|items| - 1], h) && ItemBehind(b, items[|items| - 1], h)
  {
    var before := items[..|items| - 1];
    assert forall i :: 0 <= i < |before| ==> before[i] == items[i];
  }

  lemma {:induction false} PublishAllBounded(
    b: Broker, o: Oracle, out: Out, items: seq<Content>, h: HandleId, cap: nat)
    requires BoundedChannel(o, h, cap) && Accepted(out.log, h) <= cap && AllBehind(b, items, h)
    ensures PublishAll(b, o, out, items).0 == b
    ensures Filled(out, PublishAll(b, o, out, items).1, Total(b, items), h, cap)
  {
    if items != [] {
      var before, c := items[..|items| - 1], items[|items| - 1];
      BehindPrefix(b, items, h);
      PublishAllBounded(b, o, out, before, h, cap);
      var mid := PublishAll(b, o, out, before).1;
      PublishBounded(b, o, mid, c, h, cap);
      FilledTwice(out, mid, Publish(b, o, mid, c).1, Total(b, before), |Ids(b, c)|, h, cap);
    }
  }

  lemma {:induction false} BatchBounded(
    b: Broker, o: Oracle, out: Out, items: seq<Content>, order: seq<SubId>, h: HandleId, cap: nat)
    requires Inv(b) && ValidItems(items) && FlushOrder(b, items, order) && AllBehind(b, items, h)
    requires BoundedChannel(o, h, cap) && Accepted(out.log, h) <= cap
    ensures Filled(out, Batch(b, o, out, items, order).1, Total(b, items), h, cap)
  {
    FlushOrderIsFlushable(b, items, order);
    FlushOrderCovers(b, items, order);
    BatchFills(b, o, out, items, order, h, cap);
    NothingQueued(b, items, h);
  }

  lemma {:induction false} BatchWithoutGroups(
    b: Broker, o: Oracle, out: Out, items: seq<Content>, order: seq<SubId>, h: HandleId)
    requires AllBehind(b, items, h)
    ensures Batch(b, o, out, items, order).1
         == FlushAll(b, o, out.(published := out.published + |items|), items, order)
  {
    hide QueuePlan;
    hide FlushAll;
    hide AllBehind;
    NothingQueued(b, items, h);
  }

  lemma {:induction false} BatchFills(
    b: Broker, o: Oracle, out: Out, items: seq<Content>, order: seq<SubId>, h: HandleId, cap: nat)
    requires Flushable(b, items, order) && AllBehind(b, items, h)
    requires BoundedChannel(o, h, cap) && Accepted(out.log, h) <= cap
    ensures Filled(out, Batch(b, o, out, items, order).1, Pending(b, items, order), h, cap)
  {
    var out1 := out.(published := out.published + |items|);
    BatchWithoutGroups(b, o, out, items, order, h);
    FlushAllBounded(b, o, out1, items, order, h, cap);
    FilledFrom(out, out1, FlushAll(b, o, out1, items, order), Pending(b, items, order), h, cap);
  }

  /**
   When all matches share one bounded channel with f free slots that nobody drains, a batch delivers exactly
   min(f, total), the same as one by one, although each flush stops at the first refusal.
   */
  lemma {:induction false} SharedChannelAcceptsTheSame(
    b: Broker, o: Oracle, out: Out, items: seq<Content>, order: seq<SubId>, h: HandleId, cap: nat)
    requires Inv(b) && ValidItems(items) && FlushOrder(b, items, order) && AllBehind(b, items, h)
    requires BoundedChannel(o, h, cap) && Accepted(out.log, h) <= cap
    ensures var f := cap - Accepted(out.log, h);
            && Batch(b, o, out, items, order).1.delivered == out.delivered + Min(f, Total(b, items))
            && PublishAll(b, o, out, items).1.delivered == out.delivered + Min(f, Total(b, items))
  {
    BatchBounded(b, o, out, items, order, h, cap);
    PublishAllBounded(b, o, out, items, h, cap);
    FilledDelivers(out, Batch(b, o, out, items, order).1, Total(b, items), h, cap);
    FilledDelivers(out, PublishAll(b, o, out, items).1, Total(b, items), h, cap);
  }
}
