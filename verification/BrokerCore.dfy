/** The registry and the broker as the objects the source mutates, proved against the specification. */
module BrokerCore {
  import opened Bytes
  import opened Wrappers
  import opened Subjects
  import opened Seqs
  import opened Tries
  import opened Routing
  import opened Delivery
  import opened BrokerState
  import opened Publishing
  import opened Batching
  import RoundRobin

  function Records(subs: Subs, ids: seq<SubId>): (r: seq<Subscription>)
    requires forall i :: 0 <= i < |ids| ==> ids[i] in subs
    ensures |r| == |ids| && forall i :: 0 <= i < |ids| ==> r[i] == subs[ids[i]]
  {
    seq(|ids|, i requires 0 <= i < |ids| => subs[ids[i]])
  }

  lemma {:induction false} TakeOutStep(e: Engine, subs: Subs, ids: seq<SubId>, i: nat)
    requires i < |ids| && NoDup(ids) && forall j :: 0 <= j < |ids| ==> ids[j] in subs
    ensures ids[i] in Keep(subs, ids[..i]) && Keep(subs, ids[..i])[ids[i]] == subs[ids[i]]
    ensures Keep(subs, ids[..i + 1]) == Keep(subs, ids[..i]) - {ids[i]}
    ensures RemoveMany(e, subs, ids[..i + 1])
         == RemoveEngine(RemoveMany(e, subs, ids[..i]), subs[ids[i]].pattern, ids[i])
    ensures Records(subs, ids[..i + 1]) == Records(subs, ids[..i]) + [subs[ids[i]]]
  {
    var upTo := ids[..i + 1];
    assert upTo[..i] == ids[..i] && upTo[i] == ids[i];
    KeepAppend(subs, upTo);
  }

  class SubscriptionRegistry {
    var subscriptions: map<SubId, Subscription>
    var byConnection: map<ConnId, seq<SubId>>
    const router: RoutingEngine

    constructor (router: RoutingEngine)
      ensures subscriptions == map[] && byConnection == map[] && this.router == router
    {
      subscriptions := map[];
      byConnection := map[];
      this.router := router;
    }

    method Add(sub: Subscription)
      modifies this, router, router.trie
      ensures router.View() == InsertEngine(old(router.View()), sub.pattern, sub.id)
      ensures subscriptions == old(subscriptions)[sub.id := sub]
      ensures byConnection == old(byConnection)[sub.conn := ConnList(old(byConnection), sub.conn) + [sub.id]]
    {
      router.Insert(sub.pattern, sub.id);
      subscriptions := subscriptions[sub.id := sub];
      var entry := if sub.conn in byConnection then byConnection[sub.conn] else [];
      byConnection := byConnection[sub.conn := entry + [sub.id]];
    }

    method Remove(id: SubId) returns (removed: Option<Subscription>)
      modifies this, router, router.trie
      ensures removed.Some? <==> id in old(subscriptions)
      ensures removed.None? ==>
                subscriptions == old(subscriptions) && byConnection == old(byConnection)
                && router.View() == old(router.View())
      ensures removed.Some? ==>
                && removed.value == old(subscriptions)[id]
                && subscriptions == old(subscriptions) - {id}
                && router.View() == RemoveEngine(old(router.View()), removed.value.pattern, id)
                && byConnection == (if removed.value.conn in old(byConnection)
                                    then old(byConnection)[removed.value.conn :=
                                           Without(old(byConnection)[removed.value.conn], id)]
                                    else old(byConnection))
    {
      if id !in subscriptions {
        return None;
      }
      var sub := subscriptions[id];
      subscriptions := subscriptions - {id};
      router.Remove(sub.pattern, id);
      if sub.conn in byConnection {
        byConnection := byConnection[sub.conn := Without(byConnection[sub.conn], id)];
      }
      return Some(sub);
    }

    /** Takes one subscription out of the registry and the router. */
    method TakeOut(id: SubId) returns (taken: Option<Subscription>)
      modifies this`subscriptions, router, router.trie
      ensures taken == if id in old(subscriptions) then Some(old(subscriptions)[id]) else None
      ensures subscriptions == old(subscriptions) - {id}
      ensures router.View() == if taken.Some? then RemoveEngine(old(router.View()), taken.value.pattern, id)
                               else old(router.View())
    {
      if id !in subscriptions {
        return None;
      }
      taken := Some(subscriptions[id]);
      subscriptions := subscriptions - {id};
      router.Remove(taken.value.pattern, id);
    }

    /** Everything a connection subscribed to leaves the registry and the router; the records come back in order. */
    method RemoveAllForConnection(conn: ConnId) returns (removed: seq<Subscription>)
      requires NoDup(ConnList(byConnection, conn))
      requires forall i :: 0 <= i < |ConnList(byConnection, conn)| ==> ConnList(byConnection, conn)[i] in subscriptions
      modifies this, router, router.trie
      ensures byConnection == old(byConnection) - {conn}
      ensures subscriptions == Keep(old(subscriptions), ConnList(old(byConnection), conn))
      ensures router.View() == RemoveMany(old(router.View()), old(subscriptions), ConnList(old(byConnection), conn))
      ensures removed == Records(old(subscriptions), ConnList(old(byConnection), conn))
    {
      var ids := if conn in byConnection then byConnection[conn] else [];
      byConnection := byConnection - {conn};
      removed := TakeOutAll(ids);
    }

    method TakeOutAll(ids: seq<SubId>) returns (removed: seq<Subscription>)
      requires NoDup(ids) && forall i :: 0 <= i < |ids| ==> ids[i] in subscriptions
      modifies this`subscriptions, router, router.trie
      ensures subscriptions == Keep(old(subscriptions), ids)
      ensures router.View() == RemoveMany(old(router.View()), old(subscriptions), ids)
      ensures removed == Records(old(subscriptions), ids)
    {
      removed := [];
      for i := 0 to |ids|
        invariant subscriptions == Keep(old(subscriptions), ids[..i])
        invariant router.View() == RemoveMany(old(router.View()), old(subscriptions), ids[..i])
        invariant removed == Records(old(subscriptions), ids[..i])
      {
        TakeOutStep(old(router.View()), old(subscriptions), ids, i);
        var taken := TakeOut(ids[i]);
        if taken.Some? {
          removed := removed + [taken.value];
        }
      }
      assert ids[..|ids|] == ids;
    }

    /** The connection's subscription count is the number of live subscriptions it owns. */
    method CountForConnection(conn: ConnId) returns (n: nat)
      requires ConnInv(subscriptions, byConnection)
      ensures n == |ConnIds(subscriptions, conn)|
    {
      n := if conn in byConnection then |byConnection[conn]| else 0;
      assert Indexes(ConnList(byConnection, conn), ConnIds(subscriptions, conn));
      NoDupSize(ConnList(byConnection, conn), ConnIds(subscriptions, conn));
    }
  }

  class Core {
    const registry: SubscriptionRegistry
    const router: RoutingEngine
    var queueGroups: map<GroupKey, Group>
    var queueGroupKeys: map<GroupKey, KeyRef>
    var subIdGen: SubId
    var subjectCache: map<string, Subject>
    var activeSubscriptions: int
    var messagesPublished: nat
    var messagesDelivered: nat
    var messagesDropped: nat
    // The handles: what was attempted so far and how they answer.
    var log: seq<Entry>
    const handles: Oracle

    ghost predicate Wired() {
      registry.router == router
    }

    ghost function View(): Broker
      reads this, registry, router, router.trie
    {
      Broker(registry.subscriptions, registry.byConnection, router.View(), queueGroups, queueGroupKeys,
             subIdGen, activeSubscriptions, subjectCache)
    }

    ghost function Sent(): Out
      reads this
    {
      Out(log, messagesPublished, messagesDelivered, messagesDropped)
    }

    constructor (handles: Oracle)
      ensures Wired() && View() == EMPTY_BROKER && Sent() == Out([], 0, 0, 0) && this.handles == handles
      ensures fresh(registry) && fresh(router) && fresh(router.trie)
    {
      var engine := new RoutingEngine();
      router := engine;
      registry := new SubscriptionRegistry(engine);
      queueGroups, queueGroupKeys, subIdGen, subjectCache := map[], map[], 1, map[];
      activeSubscriptions, messagesPublished, messagesDelivered, messagesDropped := 0, 0, 0, 0;
      log := [];
      this.handles := handles;
    }

    // ---- bookkeeping ----

    method Subscribe(conn: ConnId, pattern: SubjectPattern, group: Option<string>, handle: HandleId, addr: nat)
      returns (id: SubId)
      requires Wired() && Inv(View()) && ValidPattern(pattern) && FreshAddr(View(), addr)
      modifies this, registry, router, router.trie
      ensures View() == BrokerState.Subscribe(old(View()), conn, pattern, group, handle, addr)
      ensures Inv(View()) && Sent() == old(Sent())
      ensures id == old(subIdGen) && View().subs.Keys == old(View().subs.Keys) + {id}
      ensures View().subs[id].conn == conn && View().subs[id].pattern == pattern
      ensures View().subs[id].group == group && View().subs[id].handle == handle
      ensures forall other :: other in old(View()).subs && other != id ==> View().subs[other] == old(View()).subs[other]
    {
      ghost var b := View();
      id := SubscribeSteps(conn, pattern, group, handle, addr);
      SubscribeKeepsInv(b, conn, pattern, group, handle, addr);
    }

    method SubscribeSteps(conn: ConnId, pattern: SubjectPattern, group: Option<string>, handle: HandleId, addr: nat)
      returns (id: SubId)
      requires Wired()
      modifies this, registry, router, router.trie
      ensures View() == BrokerState.Subscribe(old(View()), conn, pattern, group, handle, addr)
      ensures Sent() == old(Sent()) && id == old(subIdGen)
    {
      ghost var b := View();
      id := subIdGen;
      subIdGen := subIdGen + 1;
      var ref: Option<KeyRef> := None;
      if group.Some? {
        var k := GroupKey(pattern.raw, group.value);
        var interned := Intern(k, addr);
        ref := Some(interned);
        Join(k, id);
      }
      var sub := Subscription(id, conn, pattern, group, ref, handle);
      Register(sub);
      SubscribeAssembled(b, View(), sub, addr);
    }

    method Register(sub: Subscription)
      requires Wired()
      modifies this`activeSubscriptions, registry, router, router.trie
      ensures View() == AddSub(old(View()), sub)
    {
      registry.Add(sub);
      activeSubscriptions := activeSubscriptions + 1;
    }

    /** The one pointer for a key: the interned one, or a new one at `addr`. */
    method Intern(k: GroupKey, addr: nat) returns (ref: KeyRef)
      modifies this`queueGroupKeys
      ensures ref == if k in old(queueGroupKeys) then old(queueGroupKeys)[k] else KeyRef(addr, k)
      ensures queueGroupKeys == old(queueGroupKeys)[k := ref]
    {
      if k !in queueGroupKeys {
        queueGroupKeys := queueGroupKeys[k := KeyRef(addr, k)];
      }
      ref := queueGroupKeys[k];
    }

    method Join(k: GroupKey, id: SubId)
      modifies this`queueGroups
      ensures queueGroups == old(queueGroups)[
                k := Group(Members(old(queueGroups), k) + [id],
                           if k in old(queueGroups) then old(queueGroups)[k].index else 0)]
    {
      var group := if k in queueGroups then queueGroups[k] else Group([], 0);
      queueGroups := queueGroups[k := group.(members := group.members + [id])];
    }

    method Unsubscribe(id: SubId)
      requires Wired() && Inv(View())
      modifies this, registry, router, router.trie
      ensures View() == BrokerState.Unsubscribe(old(View()), id)
      ensures View().subs == old(View()).subs - {id}
      ensures Inv(View()) && Sent() == old(Sent())
    {
      UnsubscribeKeepsInv(View(), id);
      var removed := registry.Remove(id);
      if removed.Some? {
        var sub := removed.value;
        if sub.key.Some? {
          var k := sub.key.value.key;
          if k in queueGroups {
            queueGroups := queueGroups[k := queueGroups[k].(members := Without(queueGroups[k].members, id))];
          }
        }
        activeSubscriptions := activeSubscriptions - 1;
      }
    }

    method RemoveConnection(conn: ConnId)
      requires Wired() && Inv(View())
      modifies this, registry, router, router.trie
      ensures View() == BrokerState.RemoveConnection(old(View()), conn)
      ensures Inv(View()) && Sent() == old(Sent())
    {
      ghost var b := View();
      RemovalFacts(b, conn);
      RemoveSteps(conn);
      RemoveConnectionKeepsInv(b, conn);
    }

    method RemoveSteps(conn: ConnId)
      requires Wired() && Registered(View().subs, ConnList(View().byConn, conn))
      requires queueGroupKeys.Keys == queueGroups.Keys
      modifies this, registry, router, router.trie
      ensures View() == BrokerState.RemoveConnection(old(View()), conn)
      ensures Sent() == old(Sent())
    {
      ghost var b := View();
      var removed := Detach(conn);
      CleanGroups(removed, ConnList(b.byConn, conn), b.subs);
      activeSubscriptions := activeSubscriptions - |removed|;
    }

    method Detach(conn: ConnId) returns (removed: seq<Subscription>)
      requires Wired() && Registered(View().subs, ConnList(View().byConn, conn))
      modifies registry, router, router.trie
      ensures var b, ids := old(View()), ConnList(old(View()).byConn, conn);
              && View() == b.(byConn := b.byConn - {conn}, subs := Keep(b.subs, ids),
                              router := RemoveMany(b.router, b.subs, ids))
              && removed == Records(b.subs, ids)
    {
      removed := registry.RemoveAllForConnection(conn);
    }

    /** Takes the removed subscriptions out of their groups; an emptied group goes, with its interned key. */
    method CleanGroups(removed: seq<Subscription>, ghost ids: seq<SubId>, ghost subs: Subs)
      requires Registered(subs, ids) && removed == Records(subs, ids) && queueGroupKeys.Keys == queueGroups.Keys
      modifies this`queueGroups, this`queueGroupKeys
      ensures queueGroups == DropMembers(old(queueGroups), Touched(subs, ids), ids)
      ensures queueGroupKeys == DropKeys(old(queueGroupKeys), old(queueGroups), Touched(subs, ids), ids)
    {
      var removedIds: seq<SubId> := seq(|removed|, i requires 0 <= i < |removed| => removed[i].id);
      assert removedIds == ids;
      for i := 0 to |removed|
        invariant queueGroups == DropMembers(old(queueGroups), Touched(subs, ids[..i]), ids)
        invariant queueGroupKeys == DropKeys(old(queueGroupKeys), old(queueGroups), Touched(subs, ids[..i]), ids)
      {
        TouchedAppend(subs, ids, i);
        if removed[i].key.Some? {
          var k := removed[i].key.value.key;
          DropOneMore(old(queueGroups), old(queueGroupKeys), Touched(subs, ids[..i]), ids, k);
          if k in queueGroups {
            var kept := queueGroups[k].(members := WithoutAll(queueGroups[k].members, removedIds));
            if kept.members == [] {
              queueGroups := queueGroups - {k};
              queueGroupKeys := queueGroupKeys - {k};
            } else {
              queueGroups := queueGroups[k := kept];
            }
          }
        }
      }
      assert ids[..|removed|] == ids;
    }

    // ---- delivering ----

    /** One call of the handle's `deliver`, and the counter that goes with its answer. */
    method Send(a: Attempt)
      modifies this`log, this`messagesDelivered, this`messagesDropped
      ensures Sent() == Deliver(handles, old(Sent()), a)
    {
      var status := handles(log, a);
      log := log + [Entry(a, status)];
      match status {
        case Delivered => messagesDelivered := messagesDelivered + 1;
        case ChannelFull => messagesDropped := messagesDropped + 1;
        case Failed(_) => messagesDropped := messagesDropped + 1;
      }
    }

    /** The default `deliver_batch`: one message after the other until a refusal. */
    method SendBatch(attempts: seq<Attempt>) returns (accepted: nat)
      modifies this`log
      ensures (log, accepted) == DeliverBatch(handles, old(log), attempts)
    {
      accepted := 0;
      var i := 0;
      assert attempts[0..] == attempts;
      while i < |attempts|
        invariant 0 <= i == accepted <= |attempts|
        invariant DeliverBatch(handles, old(log), attempts).0 == DeliverBatch(handles, log, attempts[i..]).0
        invariant DeliverBatch(handles, old(log), attempts).1 == i + DeliverBatch(handles, log, attempts[i..]).1
      {
        var status := handles(log, attempts[i]);
        log := log + [Entry(attempts[i], status)];
        assert attempts[i..][0] == attempts[i] && attempts[i..][1..] == attempts[i + 1..];
        if !status.Delivered? {
          break;
        }
        accepted := accepted + 1;
        i := i + 1;
      }
    }

    method DeliverToSubscriber(id: SubId, c: Content)
      modifies this`log, this`messagesDelivered, this`messagesDropped
      ensures Sent() == DeliverAll(handles, old(Sent()), Attempts(registry.subscriptions, [id], c))
    {
      assert [id][..0] == [];
      if id in registry.subscriptions {
        var sub := registry.subscriptions[id];
        Send(Attempt(sub.handle, DeliveryMessage(id, sub.conn, c)));
        assert [AttemptFor(registry.subscriptions, id, c)][..0] == [];
      }
    }

    /** Round-robin: the member the counter points at gets the message, and the counter moves on. */
    method DeliverQueueGroup(ref: KeyRef, c: Content)
      modifies this`queueGroups, this`log, this`messagesDelivered, this`messagesDropped
      ensures var pick := Select(old(queueGroups), ref.key);
              && queueGroups == pick.0
              && Sent() == DeliverAll(handles, old(Sent()),
                                      Attempts(registry.subscriptions, if pick.1.Some? then [pick.1.value] else [], c))
    {
      if ref.key in queueGroups && |queueGroups[ref.key].members| != 0 {
        var group := queueGroups[ref.key];
        var idx := RemNow(group.index, |group.members|);
        queueGroups := queueGroups[ref.key := group.(index := RoundRobin.WrapAdd1(group.index))];
        DeliverToSubscriber(group.members[idx], c);
      }
    }

    /** Serves each run of one group's key with one selection, then fans out. */
    method DeliverMatches(c: Content, ids: seq<SubId>)
      modifies this`queueGroups, this`log, this`messagesDelivered, this`messagesDropped
      ensures (View(), Sent()) == Publishing.DeliverMatches(old(View()), handles, old(Sent()), c, ids)
    {
      var fanout := ServeGroups(c, ids);
      TargetsAreAttempts(registry.subscriptions, ids, c);
      FanOut(fanout, c, Attempts(registry.subscriptions, FanoutIds(registry.subscriptions, ids), c));
    }

    method FanOut(fanout: seq<FanoutDelivery>, c: Content, ghost fan: seq<Attempt>)
      requires |fanout| == |fan|
      requires forall i :: 0 <= i < |fan| ==>
                 fan[i] == Attempt(fanout[i].handle, DeliveryMessage(fanout[i].id, fanout[i].conn, c))
      modifies this`log, this`messagesDelivered, this`messagesDropped
      ensures Sent() == DeliverAll(handles, old(Sent()), fan)
    {
      for i := 0 to |fanout|
        invariant Sent() == DeliverAll(handles, old(Sent()), fan[..i])
      {
        assert fan[..i + 1][..i] == fan[..i];
        Send(Attempt(fanout[i].handle, DeliveryMessage(fanout[i].id, fanout[i].conn, c)));
      }
      assert fan[..|fanout|] == fan;
    }

    method ServeGroups(c: Content, ids: seq<SubId>) returns (fanout: seq<FanoutDelivery>)
      modifies this`queueGroups, this`log, this`messagesDelivered, this`messagesDropped
      ensures (queueGroups, Sent()) == Served(handles, registry.subscriptions, old(queueGroups), old(Sent()),
                                              Collapse(QueueRefs(registry.subscriptions, ids)), c)
      ensures fanout == FanoutTargets(registry.subscriptions, ids)
    {
      fanout := [];
      var lastKey: Option<KeyRef> := None;
      ghost var subs, g0, out0 := registry.subscriptions, queueGroups, Sent();
      assert Scan(queueGroups, Sent(), lastKey, fanout) == ScanAt(handles, subs, g0, out0, ids[..0], c);
      for i := 0 to |ids|
        invariant Scan(queueGroups, Sent(), lastKey, fanout) == ScanAt(handles, subs, g0, out0, ids[..i], c)
      {
        var id := ids[i];
        ScanStep(handles, subs, g0, out0, ids, i, c);
        if id in registry.subscriptions {
          var sub := registry.subscriptions[id];
          if sub.key.Some? {
            var sameGroup := lastKey.Some? && lastKey.value.addr == sub.key.value.addr;
            if !sameGroup {
              if lastKey.Some? {
                DeliverQueueGroup(lastKey.value, c);
              }
              lastKey := sub.key;
            }
          } else {
            fanout := fanout + [FanoutDelivery(id, sub.conn, sub.handle)];
          }
        }
      }
      assert ids[..|ids|] == ids;
      ScanEnd(handles, subs, g0, out0, ids, c);
      if lastKey.Some? {
        DeliverQueueGroup(lastKey.value, c);
      }
    }

    // ---- publishing ----

    method Publish(c: Content)
      requires Inv(View()) && ValidSubject(c.subject)
      modifies this`queueGroups, this`log, this`messagesPublished, this`messagesDelivered, this`messagesDropped
      ensures (View(), Sent()) == Publishing.Publish(old(View()), handles, old(Sent()), c)
      ensures Inv(View())
    {
      PublishKeepsInv(View(), handles, Sent(), c);
      messagesPublished := messagesPublished + 1;
      assert Holds(old(View()), Router);
      var ids := router.MatchSubject(c.subject, Patterns(registry.subscriptions));
      DeliverMatches(c, ids);
    }

    /** The subject cache is invisible: the answer is the parser's. */
    method ParseText(text: string) returns (r: Result<Subject, CoreError>)
      requires Inv(View())
      modifies this`subjectCache
      ensures r == ParseSubject(text)
      ensures r.Success? <==> exists s :: ValidSubject(s) && s.raw == Trim(text)
      ensures r.Success? ==> ValidSubject(r.value) && r.value.raw == Trim(text)
      ensures View() == ParseCached(old(View()), text).0 && Inv(View())
    {
      CacheIsTransparent(View(), text);
      ParsesIff(text);
      if text in subjectCache {
        return Success(subjectCache[text]);
      }
      r := ParseSubject(text);
      if r.Success? {
        subjectCache := subjectCache[text := r.value];
      }
    }

    method PublishWithStr(
      text: string, payload: seq<byte>, reply: Option<Subject>, headers: Option<map<string, string>>)
      requires Inv(View())
      modifies this`queueGroups, this`log, this`subjectCache
      modifies this`messagesPublished, this`messagesDelivered, this`messagesDropped
      ensures (View(), Sent()) == PublishStr(old(View()), handles, old(Sent()), text, payload, reply, headers)
      ensures Inv(View())
    {
      PublishStrKeepsInv(View(), handles, Sent(), text, payload, reply, headers);
      messagesPublished := messagesPublished + 1;
      var subject, ids := RouteText(text);
      if subject.Some? {
        DeliverMatches(Content(subject.value, payload, reply, headers), ids);
      }
    }

    method RouteText(text: string) returns (subject: Option<Subject>, ids: seq<SubId>)
      requires Inv(View())
      modifies this`subjectCache
      ensures (View(), subject) == RouteStr(old(View()), text)
      ensures subject.Some? ==> ids == StrIds(old(View()), text, subject.value)
    {
      CacheIsTransparent(View(), text);
      assert Holds(View(), Router);
      var needsWildcardParse;
      ids, needsWildcardParse := router.MatchSubjectStr(text, Patterns(registry.subscriptions));
      if ids == [] && !needsWildcardParse {
        return None, ids;
      }
      var parsed := ParseText(text);
      if parsed.Failure? {
        return None, ids;
      }
      subject := Some(parsed.value);
      if needsWildcardParse {
        var wildcards := router.MatchWildcards(parsed.value);
        ids := ids + wildcards;
      }
    }

    // ---- publishing a batch ----

    /** Whether the subscription is known to the per-batch cache or to the registry, and what it is. */
    method LookUp(
      id: SubId, cache: seq<SubCacheEntry>) returns (info: Option<SubCacheEntry>, cache': seq<SubCacheEntry>)
      requires CacheOk(registry.subscriptions, cache)
      ensures CacheOk(registry.subscriptions, cache')
      ensures info == if id in registry.subscriptions then Some(EntryFor(registry.subscriptions, id)) else None
    {
      for i := 0 to |cache| {
        if cache[i].id == id {
          return Some(cache[i]), cache;
        }
      }
      if id !in registry.subscriptions {
        return None, cache;
      }
      var sub := registry.subscriptions[id];
      var entry := SubCacheEntry(id, sub.conn, sub.key.Some?);
      return Some(entry), cache + [entry];
    }

    /** Serves the queue groups of one item and queues its fan-out. */
    method ServeItem(c: Content, ids: seq<SubId>, pending: Pending, cache: seq<SubCacheEntry>)
      returns (pending': Pending, cache': seq<SubCacheEntry>)
      requires CacheOk(registry.subscriptions, cache)
      modifies this`queueGroups, this`log, this`messagesDelivered, this`messagesDropped
      ensures CacheOk(registry.subscriptions, cache')
      ensures ItemScan(queueGroups, Sent(), pending')
           == ItemScanAt(handles, registry.subscriptions, ItemScan(old(queueGroups), old(Sent()), pending), ids, c)
    {
      ghost var start := ItemScan(queueGroups, Sent(), pending);
      ghost var subs := registry.subscriptions;
      pending', cache' := pending, cache;
      assert start == ItemScanAt(handles, subs, start, ids[..0], c);
      for i := 0 to |ids|
        invariant CacheOk(registry.subscriptions, cache')
        invariant ItemScan(queueGroups, Sent(), pending') == ItemScanAt(handles, subs, start, ids[..i], c)
      {
        var info;
        info, cache' := LookUp(ids[i], cache');
        ItemScanStep(handles, subs, start, ids, i, c);
        if info.Some? {
          if info.value.isQueueGroup {
            OneMember(View(), handles, Sent(), c, ids[i]);
            DeliverMatches(c, [ids[i]]);
          } else {
            pending' := Append(pending', ids[i], DeliveryMessage(ids[i], info.value.conn, c));
          }
        }
      }
      assert ids[..|ids|] == ids;
    }

    /** Routes all items, reusing the previous lookup for a repeated subject. */
    method StageOne(items: seq<Content>) returns (pending: Pending)
      requires Inv(View()) && ValidItems(items)
      modifies this`queueGroups, this`log, this`messagesDelivered, this`messagesDropped
      ensures ItemScan(queueGroups, Sent(), pending) == BatchScanAt(handles, old(View()), old(Sent()), items)
    {
      ghost var b, out := View(), Sent();
      pending := map[];
      var last: Option<(Subject, seq<SubId>)> := None;
      var cache: seq<SubCacheEntry> := [];
      for i := 0 to |items|
        invariant View() == b.(groups := queueGroups)
        invariant CacheOk(b.subs, cache)
        invariant LastOk(b.router, last)
        invariant ItemScan(queueGroups, Sent(), pending) == BatchScanAt(handles, b, out, items[..i])
      {
        var c := items[i];
        var ids;
        ids, last := Route(c.subject, last, b);
        BatchScanStep(handles, b, out, items, i);
        if ids != [] {
          pending, cache := ServeItem(c, ids, pending, cache);
        }
      }
      assert items[..|items|] == items;
    }

    /** The identifiers for a subject: the previous lookup's if the subject repeats, else a new one. */
    method Route(s: Subject, last: Option<(Subject, seq<SubId>)>, ghost b: Broker)
      returns (ids: seq<SubId>, last': Option<(Subject, seq<SubId>)>)
      requires Inv(b) && ValidSubject(s) && router.View() == b.router && LastOk(b.router, last)
      ensures ids == MatchIds(b.router, s) && LastOk(b.router, last')
    {
      if last.Some? && last.value.0 == s {
        return last.value.1, last;
      }
      assert Holds(b, Router);
      ids := router.MatchSubject(s, Patterns(b.subs));
      last' := Some((s, ids));
    }

    /** Flushes the pending messages, subscription by subscription, in an arbitrary order. */
    method StageTwo(pending: Pending, ghost b: Broker, ghost items: seq<Content>) returns (ghost order: seq<SubId>)
      requires b.subs == registry.subscriptions && PendingOk(b, items, pending)
      modifies this`log, this`messagesDelivered, this`messagesDropped
      ensures FlushOrder(b, items, order)
      ensures Sent() == FlushAll(b, handles, old(Sent()), items, order)
    {
      order := [];
      var rest := pending;
      while rest != map[]
        invariant rest.Keys <= pending.Keys && forall id :: id in rest ==> rest[id] == pending[id]
        invariant NoDup(order) && forall id :: id in order <==> id in pending && id !in rest
        invariant Sent() == FlushAll(b, handles, old(Sent()), items, order)
        decreases |rest.Keys|
      {
        assert rest.Keys != {};
        var id :| id in rest;
        assert PendingFor(b, items, pending, id);
        FlushOne(id, rest[id], Mine(b, items, id));
        assert (order + [id])[..|order|] == order;
        NoDupAppend(order, id);
        order := order + [id];
        rest := rest - {id};
      }
      forall id ensures FlushedIff(b, items, order, id) {
        assert PendingFor(b, items, pending, id);
      }
    }

    /** One subscription's pending messages: a single one by `deliver`, more by `deliver_batch`. */
    method FlushOne(id: SubId, msgs: seq<DeliveryMessage>, ghost mine: seq<Content>)
      requires id in registry.subscriptions && msgs == Messages(registry.subscriptions, id, mine)
      modifies this`log, this`messagesDelivered, this`messagesDropped
      ensures Sent() == Flush(handles, old(Sent()), ToAttempts(registry.subscriptions, id, mine))
    {
      var sub := registry.subscriptions[id];
      var attempts := seq(|msgs|, i requires 0 <= i < |msgs| => Attempt(sub.handle, msgs[i]));
      assert attempts == ToAttempts(registry.subscriptions, id, mine);
      if |msgs| == 1 {
        assert attempts == [attempts[0]];
        Delivery.FlushOne(handles, Sent(), attempts[0]);
        Send(attempts[0]);
      } else {
        var accepted := SendBatch(attempts);
        messagesDelivered := messagesDelivered + accepted;
        messagesDropped := messagesDropped + (|msgs| - accepted);
      }
    }

    /** The single-subscriber shortcut applies: one exact subscriber outside groups, no wildcards, one subject. */
    method FindOnlySubscriber(items: seq<Content>) returns (only: Option<SubId>)
      requires items != [] && Inv(View())
      ensures only.Some? ==> OnlySubscriber(View(), items, only.value)
    {
      assert Holds(View(), Router);
      if router.hasWildcards {
        return None;
      }
      var single := router.ExactSingleSubscriber(items[0].subject, Patterns(registry.subscriptions));
      if single.None? || single.value !in registry.subscriptions {
        return None;
      }
      if registry.subscriptions[single.value].key.None?
         && forall i :: 0 <= i < |items| ==> items[i].subject == items[0].subject {
        return single;
      }
      return None;
    }

    /** The whole batch to one subscriber. */
    method SendWhole(id: SubId, items: seq<Content>)
      requires id in registry.subscriptions
      modifies this`log, this`messagesDelivered, this`messagesDropped
      ensures Sent() == Flush(handles, old(Sent()), ToAttempts(registry.subscriptions, id, items))
    {
      var sub := registry.subscriptions[id];
      var attempts := seq(|items|, i requires 0 <= i < |items| =>
                            Attempt(sub.handle, DeliveryMessage(id, sub.conn, items[i])));
      assert attempts == ToAttempts(registry.subscriptions, id, items);
      var accepted := SendBatch(attempts);
      messagesDelivered := messagesDelivered + accepted;
      messagesDropped := messagesDropped + (|items| - accepted);
    }

    /** The batch is published as specified, for the order in which the pending map happened to be flushed. */
    method PublishBatch(items: seq<Content>) returns (ghost order: seq<SubId>)
      requires Inv(View()) && ValidItems(items)
      modifies this`queueGroups, this`log, this`messagesPublished, this`messagesDelivered, this`messagesDropped
      ensures FlushOrder(old(View()), items, order)
      ensures (View(), Sent()) == Batch(old(View()), handles, old(Sent()), items, order)
      ensures Inv(View())
    {
      ghost var b, out := View(), Sent();
      if items == [] {
        EmptyBatch(b, handles, out);
        return [];
      }
      order := PublishSome(items, b);
      BatchKeepsInv(b, handles, out, items, order);
    }

    method PublishSome(items: seq<Content>, ghost b: Broker) returns (ghost order: seq<SubId>)
      requires b == View() && Inv(b) && ValidItems(items) && items != []
      modifies this`queueGroups, this`log, this`messagesPublished, this`messagesDelivered, this`messagesDropped
      ensures FlushOrder(b, items, order)
      ensures (View(), Sent()) == Batch(b, handles, old(Sent()), items, order)
    {
      hide Inv;
      hide ValidItems;
      hide FlushOrder;
      hide QueuePlan;
      hide FlushAll;
      ghost var out := Sent();
      messagesPublished := messagesPublished + |items|;
      order := DispatchSome(items, b);
      BatchAssembled(b, handles, out, items, order, View(), Sent());
    }

    method DispatchSome(items: seq<Content>, ghost b: Broker) returns (ghost order: seq<SubId>)
      requires b == View() && Inv(b) && ValidItems(items) && items != []
      modifies this`queueGroups, this`log, this`messagesDelivered, this`messagesDropped
      ensures FlushOrder(b, items, order)
      ensures queueGroups == QueuePlan(b, items).0
      ensures Sent() == FlushAll(b, handles, DeliverAll(handles, old(Sent()), QueuePlan(b, items).1), items, order)
    {
      var only := FindOnlySubscriber(items);
      if only.Some? {
        order := PublishWhole(only.value, items, b);
      } else {
        order := PublishPending(items, b);
      }
    }

    method PublishWhole(id: SubId, items: seq<Content>, ghost b: Broker) returns (ghost order: seq<SubId>)
      requires b == View() && OnlySubscriber(b, items, id)
      modifies this`log, this`messagesDelivered, this`messagesDropped
      ensures FlushOrder(b, items, order)
      ensures queueGroups == QueuePlan(b, items).0
      ensures Sent() == FlushAll(b, handles, DeliverAll(handles, old(Sent()), QueuePlan(b, items).1), items, order)
    {
      OnlySubscriberPlan(b, items, id);
      order := [id];
      FlushSingle(b, handles, Sent(), items, id);
      SendWhole(id, items);
    }

    method PublishPending(items: seq<Content>, ghost b: Broker) returns (ghost order: seq<SubId>)
      requires b == View() && Inv(b) && ValidItems(items)
      modifies this`queueGroups, this`log, this`messagesDelivered, this`messagesDropped
      ensures FlushOrder(b, items, order)
      ensures queueGroups == QueuePlan(b, items).0
      ensures Sent() == FlushAll(b, handles, DeliverAll(handles, old(Sent()), QueuePlan(b, items).1), items, order)
    {
      var pending := StageOne(items);
      PendingIsMine(b, items);
      order := StageTwo(pending, b, items);
    }
  }

  // ---- the pieces of a batch ----

  type Pending = map<SubId, seq<DeliveryMessage>>

  datatype SubCacheEntry = SubCacheEntry(id: SubId, conn: ConnId, isQueueGroup: bool)

  function EntryFor(subs: Subs, id: SubId): SubCacheEntry
    requires id in subs
  {
    SubCacheEntry(id, subs[id].conn, subs[id].key.Some?)
  }

  ghost predicate CacheOk(subs: Subs, cache: seq<SubCacheEntry>) {
    forall i :: 0 <= i < |cache| ==> cache[i].id in subs && cache[i] == EntryFor(subs, cache[i].id)
  }

  function Append(pending: Pending, id: SubId, msg: DeliveryMessage): Pending {
    pending[id := (if id in pending then pending[id] else []) + [msg]]
  }

  function AddPending(subs: Subs, pending: Pending, ids: seq<SubId>, c: Content): Pending {
    if ids == [] then pending
    else
      var last := ids[|ids| - 1];
      var before := AddPending(subs, pending, ids[..|ids| - 1], c);
      if last in subs && subs[last].key.None? then Append(before, last, DeliveryMessage(last, subs[last].conn, c))
      else before
  }

  function PendingMap(b: Broker, items: seq<Content>): Pending {
    if items == [] then map[]
    else
      var c := items[|items| - 1];
      AddPending(b.subs, PendingMap(b, items[..|items| - 1]), Ids(b, c), c)
  }

  function Messages(subs: Subs, id: SubId, cs: seq<Content>): (r: seq<DeliveryMessage>)
    requires id in subs
    ensures |r| == |cs| && forall i :: 0 <= i < |cs| ==> r[i] == DeliveryMessage(id, subs[id].conn, cs[i])
  {
    seq(|cs|, i requires 0 <= i < |cs| => DeliveryMessage(id, subs[id].conn, cs[i]))
  }

  datatype ItemScan = ItemScan(groups: Groups, out: Out, pending: Pending)

  function ItemScanAt(o: Oracle, subs: Subs, start: ItemScan, ids: seq<SubId>, c: Content): ItemScan {
    var (groups, out) := Served(o, subs, start.groups, start.out, QueueRefs(subs, ids), c);
    ItemScan(groups, out, AddPending(subs, start.pending, ids, c))
  }

  lemma {:induction false} ItemScanStep(o: Oracle, subs: Subs, start: ItemScan, ids: seq<SubId>, i: nat, c: Content)
    requires i < |ids|
    ensures var id, scan := ids[i], ItemScanAt(o, subs, start, ids[..i], c);
            ItemScanAt(o, subs, start, ids[..i + 1], c) ==
            if id !in subs then scan
            else if subs[id].key.None? then
              scan.(pending := Append(scan.pending, id, DeliveryMessage(id, subs[id].conn, c)))
            else
              var (g, pick) := Select(scan.groups, subs[id].key.value.key);
              ItemScan(g, DeliverAll(o, scan.out, Attempts(subs, if pick.Some? then [pick.value] else [], c)),
                       scan.pending)
  {
    var before, upTo, id := ids[..i], ids[..i + 1], ids[i];
    assert upTo[..i] == before && upTo[i] == id;
    if id in subs && subs[id].key.Some? {
      assert QueueRefs(subs, upTo) == QueueRefs(subs, before) + [subs[id].key.value];
      ServedStep(o, subs, start.groups, start.out, QueueRefs(subs, before), subs[id].key.value, c);
    } else {
      assert QueueRefs(subs, upTo) == QueueRefs(subs, before);
    }
  }

  /** `deliver_matches` on a single group member is one selection of its group. */
  lemma {:induction false} OneMember(b: Broker, o: Oracle, out: Out, c: Content, id: SubId)
    requires id in b.subs && b.subs[id].key.Some?
    ensures var (g, pick) := Select(b.groups, b.subs[id].key.value.key);
            Publishing.DeliverMatches(b, o, out, c, [id])
            == (b.(groups := g), DeliverAll(o, out, Attempts(b.subs, if pick.Some? then [pick.value] else [], c)))
  {
    var ref := b.subs[id].key.value;
    OneRef(b.subs, id);
    ServedStep(o, b.subs, b.groups, out, [], ref, c);
    assert [] + [ref] == [ref];
    assert Served(o, b.subs, b.groups, out, [], c) == (b.groups, out);
  }

  lemma {:induction false} OneRef(subs: Subs, id: SubId)
    requires id in subs && subs[id].key.Some?
    ensures Collapse(QueueRefs(subs, [id])) == [subs[id].key.value] && FanoutIds(subs, [id]) == []
  {
    hide Collapse;
    OneQueueId(subs, id);
    assert QueueRefs(subs, [id]) == [subs[id].key.value];
    CollapseOne(subs[id].key.value);
  }

  lemma {:induction false} OneQueueId(subs: Subs, id: SubId)
    requires id in subs && subs[id].key.Some?
    ensures QueueIds(subs, [id]) == [id] && FanoutIds(subs, [id]) == []
  {
    assert [id][..0] == [];
  }

  lemma {:induction false} CollapseOne(ref: KeyRef)
    ensures Collapse([ref]) == [ref]
  {
    assert [ref][..0] == [];
  }

  function BatchScanAt(o: Oracle, b: Broker, out: Out, items: seq<Content>): ItemScan {
    var (groups, queued) := QueuePlan(b, items);
    ItemScan(groups, DeliverAll(o, out, queued), PendingMap(b, items))
  }

  lemma {:induction false} BatchScanStep(o: Oracle, b: Broker, out: Out, items: seq<Content>, i: nat)
    requires i < |items|
    ensures BatchScanAt(o, b, out, items[..i + 1])
         == ItemScanAt(o, b.subs, BatchScanAt(o, b, out, items[..i]), Ids(b, items[i]), items[i])
    ensures Ids(b, items[i]) == [] ==> BatchScanAt(o, b, out, items[..i + 1]) == BatchScanAt(o, b, out, items[..i])
  {
    var before, upTo, c := items[..i], items[..i + 1], items[i];
    assert upTo[..i] == before && upTo[i] == c;
    var (groups, tried) := QueuePlan(b, before);
    var more := Attempts(b.subs, SelectAll(groups, QueueRefs(b.subs, Ids(b, c))).1, c);
    DeliverAllConcat(o, out, tried, more);
    if Ids(b, c) == [] {
      assert QueueRefs(b.subs, []) == [];
      assert tried + [] == tried;
    }
  }

  ghost predicate LastOk(router: Engine, last: Option<(Subject, seq<SubId>)>) {
    last.Some? ==> last.value.1 == MatchIds(router, last.value.0)
  }

  ghost predicate OnlySubscriber(b: Broker, items: seq<Content>, id: SubId) {
    && items != [] && !b.router.hasWildcards
    && Listed(b.router.exact, items[0].subject.raw) == [id]
    && id in b.subs && b.subs[id].key.None?
    && forall i :: 0 <= i < |items| ==> items[i].subject == items[0].subject
  }

  lemma {:induction false} OnlyId(b: Broker, items: seq<Content>, id: SubId, i: nat)
    requires OnlySubscriber(b, items, id) && i < |items|
    ensures Ids(b, items[i]) == [id]
  {
    assert [id] + [] == [id];
  }

  lemma {:induction false} OnlyPlan(b: Broker, items: seq<Content>, id: SubId)
    requires forall i :: 0 <= i < |items| ==> Ids(b, items[i]) == [id]
    requires id in b.subs && b.subs[id].key.None?
    ensures QueuePlan(b, items) == (b.groups, [])
    ensures Mine(b, items, id) == items
    ensures forall x :: x != id ==> Mine(b, items, x) == []
  {
    if items != [] {
      var before, c := items[..|items| - 1], items[|items| - 1];
      OnlyPlan(b, before, id);
      assert [id][..0] == [];
      assert QueueIds(b.subs, [id]) == [];
      assert Ids(b, items[|items| - 1]) == [id];
      assert items == before + [c];
    }
  }

  lemma {:induction false} EmptyBatch(b: Broker, o: Oracle, out: Out)
    ensures FlushOrder(b, [], []) && Batch(b, o, out, [], []) == (b, out)
  {
  }

  lemma {:induction false} OnlySubscriberPlan(b: Broker, items: seq<Content>, id: SubId)
    requires OnlySubscriber(b, items, id)
    ensures QueuePlan(b, items) == (b.groups, []) && Mine(b, items, id) == items
    ensures FlushOrder(b, items, [id])
  {
    forall i | 0 <= i < |items| ensures Ids(b, items[i]) == [id] {
      OnlyId(b, items, id, i);
    }
    OnlyPlan(b, items, id);
  }

  lemma {:induction false} FlushSingle(b: Broker, o: Oracle, out: Out, items: seq<Content>, id: SubId)
    requires id in b.subs
    ensures FlushAll(b, o, out, items, [id]) == Flush(o, out, ToAttempts(b.subs, id, Mine(b, items, id)))
  {
    assert [id][..0] == [];
    assert FlushAll(b, o, out, items, []) == out;
  }

  lemma {:induction false} BatchAssembled(
    b: Broker, o: Oracle, out: Out, items: seq<Content>, order: seq<SubId>, b': Broker, out': Out)
    requires b' == b.(groups := QueuePlan(b, items).0)
    requires var out1 := out.(published := out.published + |items|);
             out' == FlushAll(b, o, DeliverAll(o, out1, QueuePlan(b, items).1), items, order)
    ensures (b', out') == Batch(b, o, out, items, order)
  {
  }

  lemma {:induction false} AddPendingLaw(subs: Subs, pending: Pending, ids: seq<SubId>, c: Content, id: SubId)
    requires NoDup(ids)
    ensures var after := AddPending(subs, pending, ids, c);
            if id in ids && id in subs && subs[id].key.None?
            then id in after
                 && after[id] == (if id in pending then pending[id] else []) + [DeliveryMessage(id, subs[id].conn, c)]
            else (id in after <==> id in pending) && (id in after ==> after[id] == pending[id])
  {
    if ids != [] {
      var before, last := ids[..|ids| - 1], ids[|ids| - 1];
      AddPendingLaw(subs, pending, before, c, id);
      assert ids == before + [last] && last !in before;
    }
  }

  lemma {:induction false} MessagesAppend(subs: Subs, id: SubId, cs: seq<Content>, c: Content)
    requires id in subs
    ensures Messages(subs, id, cs + [c]) == Messages(subs, id, cs) + [DeliveryMessage(id, subs[id].conn, c)]
  {
  }

  ghost predicate PendingFor(b: Broker, items: seq<Content>, pending: Pending, id: SubId) {
    && (id in pending <==> id in b.subs && b.subs[id].key.None? && Mine(b, items, id) != [])
    && (id in pending ==> pending[id] == Messages(b.subs, id, Mine(b, items, id)))
  }

  ghost predicate PendingOk(b: Broker, items: seq<Content>, pending: Pending) {
    forall id :: PendingFor(b, items, pending, id)
  }

  lemma {:induction false} PendingStep(b: Broker, items: seq<Content>, pending: Pending, id: SubId)
    requires items != [] && NoDup(Ids(b, items[|items| - 1]))
    requires PendingFor(b, items[..|items| - 1], pending, id)
    ensures PendingFor(b, items, AddPending(b.subs, pending, Ids(b, items[|items| - 1]), items[|items| - 1]), id)
  {
    var before, c := items[..|items| - 1], items[|items| - 1];
    AddPendingLaw(b.subs, pending, Ids(b, c), c, id);
    if id in b.subs {
      MessagesAppend(b.subs, id, Mine(b, before, id), c);
      assert Messages(b.subs, id, []) == [];
    }
  }

  /** What is pending for a subscription are the items that match it. */
  lemma {:induction false} PendingIsMine(b: Broker, items: seq<Content>)
    requires Inv(b) && ValidItems(items)
    ensures PendingOk(b, items, PendingMap(b, items))
  {
    if items != [] {
      var before, c := items[..|items| - 1], items[|items| - 1];
      assert ValidItems(before);
      PendingIsMine(b, before);
      MatchScan(b, c.subject);
      forall id ensures PendingFor(b, items, PendingMap(b, items), id) {
        assert PendingFor(b, before, PendingMap(b, before), id);
        PendingStep(b, items, PendingMap(b, before), id);
      }
    }
  }

  method RemNow(x: nat, n: nat) returns (r: nat)
    requires n > 0
    ensures r == RoundRobin.Rem(x, n)
  {
    RoundRobin.RemIsModulo(x, n);
    r := x % n;
  }

  // ---- the pieces of a delivery ----

  datatype FanoutDelivery = FanoutDelivery(id: SubId, conn: ConnId, handle: HandleId)

  function FanoutTargets(subs: Subs, ids: seq<SubId>): seq<FanoutDelivery> {
    if ids == [] then []
    else
      var last := ids[|ids| - 1];
      FanoutTargets(subs, ids[..|ids| - 1])
      + if last in subs && subs[last].key.None? then [FanoutDelivery(last, subs[last].conn, subs[last].handle)] else []
  }

  lemma {:induction false} TargetsAreAttempts(subs: Subs, ids: seq<SubId>, c: Content)
    ensures var targets, fan := FanoutTargets(subs, ids), Attempts(subs, FanoutIds(subs, ids), c);
            && |targets| == |fan|
            && forall i :: 0 <= i < |fan| ==>
                 fan[i] == Attempt(targets[i].handle, DeliveryMessage(targets[i].id, targets[i].conn, c))
  {
    if ids != [] {
      var before, last := ids[..|ids| - 1], ids[|ids| - 1];
      TargetsAreAttempts(subs, before, c);
      if last in subs && subs[last].key.None? {
        assert (FanoutIds(subs, before) + [last])[..|FanoutIds(subs, before)|] == FanoutIds(subs, before);
      } else {
        assert FanoutIds(subs, ids) == FanoutIds(subs, before);
      }
    }
  }

  /** The groups and the log after serving the given runs. */
  function Served(o: Oracle, subs: Subs, groups: Groups, out: Out, runs: seq<KeyRef>, c: Content): (Groups, Out) {
    var (after, chosen) := SelectAll(groups, runs);
    (after, DeliverAll(o, out, Attempts(subs, chosen, c)))
  }

  function LastOf(runs: seq<KeyRef>): Option<KeyRef> {
    if runs == [] then None else Some(runs[|runs| - 1])
  }

  function ButLast(runs: seq<KeyRef>): seq<KeyRef> {
    if runs == [] then [] else runs[..|runs| - 1]
  }

  lemma {:induction false} ServedStep(
    o: Oracle, subs: Subs, groups: Groups, out: Out, runs: seq<KeyRef>, ref: KeyRef, c: Content)
    ensures var (g, out1) := Served(o, subs, groups, out, runs, c);
            var (after, pick) := Select(g, ref.key);
            Served(o, subs, groups, out, runs + [ref], c)
            == (after, DeliverAll(o, out1, Attempts(subs, if pick.Some? then [pick.value] else [], c)))
  {
    var (g, chosen) := SelectAll(groups, runs);
    var (after, pick) := Select(g, ref.key);
    assert (runs + [ref])[..|runs|] == runs;
    var more := if pick.Some? then [pick.value] else [];
    assert chosen + [] == chosen;
    assert SelectAll(groups, runs + [ref]) == (after, chosen + more);
    AttemptsConcat(subs, chosen, more, c);
    DeliverAllConcat(o, out, Attempts(subs, chosen, c), Attempts(subs, more, c));
  }

  /** Where `deliver_matches` stands: what it has served, the group it is collecting, and its fan-out list. */
  datatype Scan = Scan(groups: Groups, out: Out, lastKey: Option<KeyRef>, fanout: seq<FanoutDelivery>)

  function ScanAt(o: Oracle, subs: Subs, groups: Groups, out: Out, ids: seq<SubId>, c: Content): Scan {
    var runs := Collapse(QueueRefs(subs, ids));
    var (g, sent) := Served(o, subs, groups, out, ButLast(runs), c);
    Scan(g, sent, LastOf(runs), FanoutTargets(subs, ids))
  }

  /** Serving the group collected so far. */
  function Flushed(o: Oracle, subs: Subs, scan: Scan, c: Content): (Groups, Out) {
    if scan.lastKey.None? then (scan.groups, scan.out)
    else
      var (g, pick) := Select(scan.groups, scan.lastKey.value.key);
      (g, DeliverAll(o, scan.out, Attempts(subs, if pick.Some? then [pick.value] else [], c)))
  }

  lemma {:induction false} ScanEnd(o: Oracle, subs: Subs, groups: Groups, out: Out, ids: seq<SubId>, c: Content)
    ensures Flushed(o, subs, ScanAt(o, subs, groups, out, ids, c), c)
         == Served(o, subs, groups, out, Collapse(QueueRefs(subs, ids)), c)
  {
    var runs := Collapse(QueueRefs(subs, ids));
    if runs != [] {
      assert runs == ButLast(runs) + [runs[|runs| - 1]];
      ServedStep(o, subs, groups, out, ButLast(runs), runs[|runs| - 1], c);
    }
  }

  lemma {:induction false} ScanStep(
    o: Oracle, subs: Subs, groups: Groups, out: Out, ids: seq<SubId>, i: nat, c: Content)
    requires i < |ids|
    ensures var id, scan := ids[i], ScanAt(o, subs, groups, out, ids[..i], c);
            ScanAt(o, subs, groups, out, ids[..i + 1], c) ==
            if id !in subs then scan
            else if subs[id].key.None? then
              scan.(fanout := scan.fanout + [FanoutDelivery(id, subs[id].conn, subs[id].handle)])
            else if scan.lastKey.Some? && scan.lastKey.value.addr == subs[id].key.value.addr then scan
            else
              var (g, sent) := Flushed(o, subs, scan, c);
              Scan(g, sent, subs[id].key, scan.fanout)
  {
    MatchStep(subs, ids, i);
    ScanEnd(o, subs, groups, out, ids[..i], c);
    var runs, runs' := Collapse(QueueRefs(subs, ids[..i])), Collapse(QueueRefs(subs, ids[..i + 1]));
    assert runs' != runs ==> ButLast(runs') == runs;
    assert FanoutTargets(subs, ids[..i]) + [] == FanoutTargets(subs, ids[..i]);
  }

  lemma {:induction false} AttemptsConcat(subs: Subs, a: seq<SubId>, b: seq<SubId>, c: Content)
    ensures Attempts(subs, a + b, c) == Attempts(subs, a, c) + Attempts(subs, b, c)
  {
    if b == [] {
      assert a + b == a;
    } else {
      var before, last := b[..|b| - 1], b[|b| - 1];
      AttemptsConcat(subs, a, before, c);
      assert (a + b)[..|a + b| - 1] == a + before;
      ConcatAssoc(Attempts(subs, a, c), Attempts(subs, before, c),
                  if last in subs then [AttemptFor(subs, last, c)] else []);
    }
  }

  lemma {:induction false} CollapseLast(refs: seq<KeyRef>)
    requires refs != []
    ensures Collapse(refs) != [] && Collapse(refs)[|Collapse(refs)| - 1].addr == refs[|refs| - 1].addr
  {
    var n := |refs|;
    if n >= 2 && refs[n - 1].addr == refs[n - 2].addr {
      CollapseLast(refs[..n - 1]);
    }
  }

  /** What one more matched identifier adds to the fan-out and to the runs. */
  lemma {:induction false} MatchStep(subs: Subs, ids: seq<SubId>, i: nat)
    requires i < |ids|
    ensures var id, runs, runs' := ids[i], Collapse(QueueRefs(subs, ids[..i])), Collapse(QueueRefs(subs, ids[..i + 1]));
            && FanoutTargets(subs, ids[..i + 1])
               == FanoutTargets(subs, ids[..i])
                  + (if id in subs && subs[id].key.None? then [FanoutDelivery(id, subs[id].conn, subs[id].handle)]
                     else [])
            && runs' == if id in subs && subs[id].key.Some?
                           && !(LastOf(runs).Some? && LastOf(runs).value.addr == subs[id].key.value.addr)
                        then runs + [subs[id].key.value] else runs
  {
    var before, upTo, id := ids[..i], ids[..i + 1], ids[i];
    assert upTo[..i] == before && upTo[i] == id;
    var refs := QueueRefs(subs, before);
    if id in subs && subs[id].key.Some? {
      assert QueueRefs(subs, upTo) == refs + [subs[id].key.value];
      CollapseAppend(refs, subs[id].key.value);
    } else {
      assert QueueRefs(subs, upTo) == refs;
    }
  }

  lemma {:induction false} CollapseAppend(refs: seq<KeyRef>, ref: KeyRef)
    ensures var runs := Collapse(refs);
            Collapse(refs + [ref])
            == if LastOf(runs).Some? && LastOf(runs).value.addr == ref.addr then runs else runs + [ref]
  {
    var all := refs + [ref];
    assert all[..|refs|] == refs;
    if refs != [] {
      CollapseLast(refs);
      assert all[|refs| - 1] == refs[|refs| - 1];
    }
  }

  ghost predicate Registered(subs: Subs, ids: seq<SubId>) {
    NoDup(ids) && forall i :: 0 <= i < |ids| ==> ids[i] in subs && subs[ids[i]].id == ids[i]
  }

  lemma {:induction false} RemovalFacts(b: Broker, conn: ConnId)
    requires Inv(b)
    ensures var ids := ConnList(b.byConn, conn);
            && Registered(b.subs, ids)
            && b.keys.Keys == b.groups.Keys
  {
    assert Holds(b, Connections) && Holds(b, Keys) && Holds(b, Subscriptions);
    var ids := ConnList(b.byConn, conn);
    assert Indexes(ids, ConnIds(b.subs, conn));
    SizeAfterRemoval(b.subs, ids, conn);
    forall i | 0 <= i < |ids| ensures ids[i] in b.subs && b.subs[ids[i]].id == ids[i] {
      assert ids[i] in ids;
      assert SubOk(ids[i], b.subs[ids[i]], b.keys);
    }
  }

  lemma {:induction false} TouchedAppend(subs: Subs, ids: seq<SubId>, i: nat)
    requires i < |ids| && ids[i] in subs
    ensures Touched(subs, ids[..i + 1])
         == Touched(subs, ids[..i]) + if subs[ids[i]].key.Some? then {subs[ids[i]].key.value.key} else {}
  {
    assert ids[..i + 1] == ids[..i] + [ids[i]];
  }
}
