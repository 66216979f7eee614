/**
 The broker's bookkeeping: the subscription registry, the per-connection lists, the router, the queue
 groups with their interned keys, and the counter of active subscriptions. One invariant ties them all
 to the set of live subscriptions, and every run of subscribe, unsubscribe and remove_connection keeps it.
 */
module BrokerState {
  import opened Wrappers
  import opened Subjects
  import opened Seqs
  import opened Tries
  import opened Routing
  import opened Delivery
  import RoundRobin

  datatype GroupKey = GroupKey(pattern: string, name: string)

  /** A shared pointer to a group key: two pointers are the same one exactly when their addresses agree. */
  datatype KeyRef = KeyRef(addr: nat, key: GroupKey)

  datatype Subscription = Subscription(
    id: SubId, conn: ConnId, pattern: SubjectPattern, group: Option<string>, key: Option<KeyRef>, handle: HandleId)

  datatype Group = Group(members: seq<SubId>, index: RoundRobin.Word)

  datatype Broker = Broker(
    subs: map<SubId, Subscription>,
    byConn: map<ConnId, seq<SubId>>,
    router: Engine,
    groups: map<GroupKey, Group>,
    keys: map<GroupKey, KeyRef>,
    nextId: SubId,
    active: int,
    cache: map<string, Subject>)

  const EMPTY_BROKER: Broker := Broker(map[], map[], EMPTY_ENGINE, map[], map[], 1, 0, map[])

  function ConnList(byConn: map<ConnId, seq<SubId>>, c: ConnId): seq<SubId> {
    if c in byConn then byConn[c] else []
  }

  function Members(groups: map<GroupKey, Group>, k: GroupKey): seq<SubId> {
    if k in groups then groups[k].members else []
  }

  // ---- operations ----

  /** `SubscriptionRegistry::add` plus the counter. */
  function AddSub(b: Broker, sub: Subscription): Broker {
    b.(router := InsertEngine(b.router, sub.pattern, sub.id),
       subs := b.subs[sub.id := sub],
       byConn := b.byConn[sub.conn := ConnList(b.byConn, sub.conn) + [sub.id]],
       active := b.active + 1)
  }

  /** `subscribe`; `addr` is the address the allocator would give a newly interned key. */
  function Subscribe(
    b: Broker, conn: ConnId, p: SubjectPattern, group: Option<string>, handle: HandleId, addr: nat): Broker
  {
    var id := b.nextId;
    var b1 := b.(nextId := id + 1);
    if group.None? then AddSub(b1, Subscription(id, conn, p, group, None, handle))
    else
      var k := GroupKey(p.raw, group.value);
      var ref := if k in b.keys then b.keys[k] else KeyRef(addr, k);
      var index := if k in b.groups then b.groups[k].index else 0;
      AddSub(b1.(keys := b.keys[k := ref], groups := b.groups[k := Group(Members(b.groups, k) + [id], index)]),
             Subscription(id, conn, p, group, Some(ref), handle))
  }

  /** The new broker from the pieces a subscribe updates one after the other. */
  lemma {:induction false} SubscribeAssembled(b: Broker, b': Broker, sub: Subscription, addr: nat)
    requires sub.id == b.nextId && (sub.group.None? <==> sub.key.None?)
    requires b' == AddSub(b.(nextId := b.nextId + 1, keys := b'.keys, groups := b'.groups), sub)
    requires sub.key.None? ==> b'.keys == b.keys && b'.groups == b.groups
    requires sub.key.Some? ==>
               var k := GroupKey(sub.pattern.raw, sub.group.value);
               && sub.key.value == (if k in b.keys then b.keys[k] else KeyRef(addr, k))
               && b'.keys == b.keys[k := sub.key.value]
               && b'.groups == b.groups[k := Group(Members(b.groups, k) + [sub.id],
                                                   if k in b.groups then b.groups[k].index else 0)]
    ensures b' == Subscribe(b, sub.conn, sub.pattern, sub.group, sub.handle, addr)
  {
  }

  /** `unsubscribe`: an emptied group keeps its entry and its interned key. */
  function Unsubscribe(b: Broker, id: SubId): Broker {
    if id !in b.subs then b
    else
      var sub := b.subs[id];
      var k := if sub.key.Some? then sub.key.value.key else GroupKey("", "");
      b.(subs := b.subs - {id},
         router := RemoveEngine(b.router, sub.pattern, id),
         byConn := if sub.conn in b.byConn
                   then b.byConn[sub.conn := Without(b.byConn[sub.conn], id)] else b.byConn,
         groups := if sub.key.Some? && k in b.groups
                   then b.groups[k := b.groups[k].(members := Without(b.groups[k].members, id))] else b.groups,
         active := b.active - 1)
  }

  /** Every registered identifier of the list is taken out of the router. */
  function RemoveMany(e: Engine, subs: map<SubId, Subscription>, ids: seq<SubId>): Engine {
    if ids == [] then e
    else
      var last := ids[|ids| - 1];
      var before := RemoveMany(e, subs, ids[..|ids| - 1]);
      if last in subs then RemoveEngine(before, subs[last].pattern, last) else before
  }

  function Keep(subs: map<SubId, Subscription>, gone: seq<SubId>): map<SubId, Subscription> {
    map id | id in subs && id !in gone :: subs[id]
  }

  /** The groups that lose a member when `ids` go. */
  function Touched(subs: map<SubId, Subscription>, ids: seq<SubId>): set<GroupKey> {
    set id | id in ids && id in subs && subs[id].key.Some? :: subs[id].key.value.key
  }

  predicate Survives(groups: map<GroupKey, Group>, touched: set<GroupKey>, ids: seq<SubId>, k: GroupKey) {
    k in groups && (k in touched ==> WithoutAll(groups[k].members, ids) != [])
  }

  function DropMembers(groups: map<GroupKey, Group>, touched: set<GroupKey>, ids: seq<SubId>): map<GroupKey, Group> {
    map k | k in groups && Survives(groups, touched, ids, k) ::
      if k in touched then groups[k].(members := WithoutAll(groups[k].members, ids)) else groups[k]
  }

  function DropKeys(keys: map<GroupKey, KeyRef>, groups: map<GroupKey, Group>, touched: set<GroupKey>, ids: seq<SubId>)
    : map<GroupKey, KeyRef>
  {
    map k | k in keys && (k in groups ==> Survives(groups, touched, ids, k)) :: keys[k]
  }

  /** `remove_connection`: a group that is emptied this way disappears together with its interned key. */
  function RemoveConnection(b: Broker, conn: ConnId): Broker {
    var ids := ConnList(b.byConn, conn);
    var touched := Touched(b.subs, ids);
    b.(byConn := b.byConn - {conn},
       subs := Keep(b.subs, ids),
       router := RemoveMany(b.router, b.subs, ids),
       groups := DropMembers(b.groups, touched, ids),
       keys := DropKeys(b.keys, b.groups, touched, ids),
       active := b.active - |ids|)
  }

  // ---- the invariant ----

  function Patterns(subs: map<SubId, Subscription>): Live {
    map id | id in subs :: subs[id].pattern
  }

  function ConnIds(subs: map<SubId, Subscription>, c: ConnId): set<SubId> {
    set id | id in subs && subs[id].conn == c
  }

  function GroupIds(subs: map<SubId, Subscription>, k: GroupKey): set<SubId> {
    set id | id in subs && subs[id].key.Some? && subs[id].key.value.key == k
  }

  /** `list` holds exactly `ids`, in the order they were handed out. */
  ghost predicate Indexes(list: seq<SubId>, ids: set<SubId>) {
    Ascending(list) && forall id :: id in list <==> id in ids
  }

  ghost predicate ConnInv(subs: map<SubId, Subscription>, byConn: map<ConnId, seq<SubId>>) {
    forall c :: Indexes(ConnList(byConn, c), ConnIds(subs, c))
  }

  ghost predicate GroupInv(subs: map<SubId, Subscription>, groups: map<GroupKey, Group>) {
    forall k :: Indexes(Members(groups, k), GroupIds(subs, k))
  }

  ghost predicate SubOk(id: SubId, sub: Subscription, keys: map<GroupKey, KeyRef>) {
    && sub.id == id
    && (sub.group.None? <==> sub.key.None?)
    && (sub.key.Some? ==>
          var k := GroupKey(sub.pattern.raw, sub.group.value);
          k in keys && sub.key.value == keys[k])
  }

  ghost predicate KeyInv(keys: map<GroupKey, KeyRef>) {
    && (forall k :: k in keys ==> keys[k].key == k)
    && (forall j, k :: j in keys && k in keys && keys[j].addr == keys[k].addr ==> j == k)
  }

  ghost predicate SubsInv(b: Broker) {
    forall id :: id in b.subs ==> id < b.nextId && SubOk(id, b.subs[id], b.keys)
  }

  ghost predicate CacheInv(cache: map<string, Subject>) {
    forall text :: text in cache ==> ParseSubject(text) == Success(cache[text])
  }

  ghost predicate AllParts(b: Broker) {
    && EngineInv(b.router, Patterns(b.subs))
    && Ordered(b.router)
    && SubsInv(b)
    && ConnInv(b.subs, b.byConn)
    && GroupInv(b.subs, b.groups)
    && KeyInv(b.keys)
    && b.keys.Keys == b.groups.Keys
    && b.active == |b.subs|
    && CacheInv(b.cache)
  }

  /** The aspects of the bookkeeping that have to agree. */
  datatype Part = Router | RouterOrder | Subscriptions | Connections | QueueGroups | Keys | Counter | Cache

  ghost predicate Holds(b: Broker, part: Part) {
    match part
    case Router => EngineInv(b.router, Patterns(b.subs))
    case RouterOrder => Ordered(b.router)
    case Subscriptions => SubsInv(b)
    case Connections => ConnInv(b.subs, b.byConn)
    case QueueGroups => GroupInv(b.subs, b.groups)
    case Keys => KeyInv(b.keys) && b.keys.Keys == b.groups.Keys
    case Counter => b.active == |b.subs|
    case Cache => CacheInv(b.cache)
  }

  /** All indexes describe the same live subscriptions. */
  ghost predicate Inv(b: Broker) {
    forall part :: Holds(b, part)
  }

  lemma {:induction false} Open(b: Broker)
    requires Inv(b)
    ensures AllParts(b)
  {
    assert Holds(b, Router) && Holds(b, RouterOrder) && Holds(b, Subscriptions) && Holds(b, Connections);
    assert Holds(b, QueueGroups) && Holds(b, Keys) && Holds(b, Counter) && Holds(b, Cache);
  }

  lemma {:induction false} Close(b: Broker)
    requires AllParts(b)
    ensures Inv(b)
  {
    forall part ensures Holds(b, part) {
      match part {
        case Router =>
        case RouterOrder =>
        case Subscriptions =>
        case Connections =>
        case QueueGroups =>
        case Keys =>
        case Counter =>
        case Cache =>
      }
    }
  }

  /** Live subscriptions share a key pointer exactly when they have the same pattern text and group name. */
  lemma {:induction false} PointerEqualityIsKeyEquality(b: Broker, i: SubId, j: SubId)
    requires Inv(b) && i in b.subs && j in b.subs
    requires b.subs[i].key.Some? && b.subs[j].key.Some?
    ensures b.subs[i].key.value.addr == b.subs[j].key.value.addr <==>
            b.subs[i].pattern.raw == b.subs[j].pattern.raw && b.subs[i].group == b.subs[j].group
  {
    Open(b);
    assert SubOk(i, b.subs[i], b.keys) && SubOk(j, b.subs[j], b.keys);
  }

  // ---- the lists ----

  lemma {:induction false} IndexesAppend(list: seq<SubId>, ids: set<SubId>, id: SubId)
    requires Indexes(list, ids) && forall x :: x in ids ==> x < id
    ensures Indexes(list + [id], ids + {id})
  {
    forall i | 0 <= i < |list| ensures list[i] < id {
      assert list[i] in list;
    }
  }

  lemma {:induction false} IndexesWithout(list: seq<SubId>, ids: set<SubId>, id: SubId)
    requires Indexes(list, ids)
    ensures Indexes(Without(list, id), ids - {id})
  {
    WithoutAscending(list, id);
  }

  lemma {:induction false} IndexesWithoutAll(list: seq<SubId>, ids: set<SubId>, gone: seq<SubId>)
    requires Indexes(list, ids)
    ensures Indexes(WithoutAll(list, gone), set id | id in ids && id !in gone)
  {
    WithoutAllAscending(list, gone);
  }

  // ---- subscribe ----

  /** An address the allocator may hand out: no key that is still referenced has it. */
  ghost predicate FreshAddr(b: Broker, addr: nat) {
    forall k :: k in b.keys ==> b.keys[k].addr != addr
  }

  lemma {:induction false} ConnsAfterAdd(
    subs: map<SubId, Subscription>, byConn: map<ConnId, seq<SubId>>, sub: Subscription)
    requires ConnInv(subs, byConn) && forall id :: id in subs ==> id < sub.id
    ensures ConnInv(subs[sub.id := sub], byConn[sub.conn := ConnList(byConn, sub.conn) + [sub.id]])
  {
    var subs' := subs[sub.id := sub];
    var byConn' := byConn[sub.conn := ConnList(byConn, sub.conn) + [sub.id]];
    forall c ensures Indexes(ConnList(byConn', c), ConnIds(subs', c)) {
      assert Indexes(ConnList(byConn, c), ConnIds(subs, c));
      if c == sub.conn {
        IndexesAppend(ConnList(byConn, c), ConnIds(subs, c), sub.id);
        assert ConnIds(subs', c) == ConnIds(subs, c) + {sub.id};
      } else {
        assert ConnIds(subs', c) == ConnIds(subs, c);
      }
    }
  }

  lemma {:induction false} GroupsAfterAdd(
    subs: map<SubId, Subscription>, groups: map<GroupKey, Group>, sub: Subscription, index: RoundRobin.Word)
    requires GroupInv(subs, groups) && forall id :: id in subs ==> id < sub.id
    ensures sub.key.None? ==> GroupInv(subs[sub.id := sub], groups)
    ensures sub.key.Some? ==>
              var k := sub.key.value.key;
              GroupInv(subs[sub.id := sub], groups[k := Group(Members(groups, k) + [sub.id], index)])
  {
    var subs' := subs[sub.id := sub];
    if sub.key.None? {
      forall k ensures Indexes(Members(groups, k), GroupIds(subs', k)) {
        assert Indexes(Members(groups, k), GroupIds(subs, k));
        assert GroupIds(subs', k) == GroupIds(subs, k);
      }
    } else {
      var home := sub.key.value.key;
      var groups' := groups[home := Group(Members(groups, home) + [sub.id], index)];
      forall k ensures Indexes(Members(groups', k), GroupIds(subs', k)) {
        assert Indexes(Members(groups, k), GroupIds(subs, k));
        if k == home {
          IndexesAppend(Members(groups, k), GroupIds(subs, k), sub.id);
          assert GroupIds(subs', k) == GroupIds(subs, k) + {sub.id};
        } else {
          assert GroupIds(subs', k) == GroupIds(subs, k);
        }
      }
    }
  }

  lemma {:induction false} InternKeepsKeys(keys: map<GroupKey, KeyRef>, k: GroupKey, addr: nat)
    requires KeyInv(keys) && forall j :: j in keys ==> keys[j].addr != addr
    ensures KeyInv(keys[k := if k in keys then keys[k] else KeyRef(addr, k)])
  {
  }

  lemma {:induction false} SubscribeKeepsSubs(
    b: Broker, conn: ConnId, p: SubjectPattern, group: Option<string>, handle: HandleId, addr: nat)
    requires SubsInv(b)
    ensures SubsInv(Subscribe(b, conn, p, group, handle, addr))
  {
    var b' := Subscribe(b, conn, p, group, handle, addr);
    forall id | id in b'.subs ensures id < b'.nextId && SubOk(id, b'.subs[id], b'.keys) {
      if id != b.nextId {
        assert SubOk(id, b.subs[id], b.keys);
      }
    }
  }

  lemma {:induction false} SubscribeRouter(
    b: Broker, conn: ConnId, p: SubjectPattern, group: Option<string>, handle: HandleId, addr: nat)
    requires Inv(b) && ValidPattern(p)
    ensures Holds(Subscribe(b, conn, p, group, handle, addr), Router)
  {
    assert Holds(b, Router) && Holds(b, Subscriptions);
    RouterAfterAdd(b.router, b.subs, Subscribe(b, conn, p, group, handle, addr).subs[b.nextId]);
  }

  lemma {:induction false} SubscribeOrder(
    b: Broker, conn: ConnId, p: SubjectPattern, group: Option<string>, handle: HandleId, addr: nat)
    requires Inv(b)
    ensures Holds(Subscribe(b, conn, p, group, handle, addr), RouterOrder)
  {
    assert Holds(b, Router) && Holds(b, RouterOrder) && Holds(b, Subscriptions);
    forall x | x in Patterns(b.subs) ensures x < b.nextId {
      assert x in b.subs;
    }
    InsertKeepsOrder(b.router, Patterns(b.subs), p, b.nextId);
  }

  lemma {:induction false} SubscribeConnections(
    b: Broker, conn: ConnId, p: SubjectPattern, group: Option<string>, handle: HandleId, addr: nat)
    requires Inv(b)
    ensures Holds(Subscribe(b, conn, p, group, handle, addr), Connections)
  {
    assert Holds(b, Connections) && Holds(b, Subscriptions);
    ConnsAfterAdd(b.subs, b.byConn, Subscribe(b, conn, p, group, handle, addr).subs[b.nextId]);
  }

  lemma {:induction false} SubscribeGroups(
    b: Broker, conn: ConnId, p: SubjectPattern, group: Option<string>, handle: HandleId, addr: nat)
    requires Inv(b)
    ensures Holds(Subscribe(b, conn, p, group, handle, addr), QueueGroups)
  {
    assert Holds(b, QueueGroups) && Holds(b, Subscriptions) && Holds(b, Keys);
    var b' := Subscribe(b, conn, p, group, handle, addr);
    var sub := b'.subs[b.nextId];
    GroupsAfterAdd(b.subs, b.groups, sub, if sub.key.Some? then b'.groups[sub.key.value.key].index else 0);
  }

  lemma {:induction false} SubscribeKeys(
    b: Broker, conn: ConnId, p: SubjectPattern, group: Option<string>, handle: HandleId, addr: nat)
    requires Inv(b) && FreshAddr(b, addr)
    ensures Holds(Subscribe(b, conn, p, group, handle, addr), Keys)
    ensures Holds(Subscribe(b, conn, p, group, handle, addr), Counter)
  {
    assert Holds(b, Keys) && Holds(b, Counter) && Holds(b, Subscriptions);
    if group.Some? {
      InternKeepsKeys(b.keys, GroupKey(p.raw, group.value), addr);
    }
  }

  lemma {:induction false} SubscribeRecord(
    b: Broker, conn: ConnId, p: SubjectPattern, group: Option<string>, handle: HandleId, addr: nat)
    requires Inv(b)
    ensures var b' := Subscribe(b, conn, p, group, handle, addr);
            && b.nextId !in b.subs && b.nextId in b'.subs && b'.subs - {b.nextId} == b.subs
            && b'.subs[b.nextId].conn == conn && b'.subs[b.nextId].pattern == p
            && b'.subs[b.nextId].group == group && b'.subs[b.nextId].handle == handle
  {
    assert Holds(b, Subscriptions);
    hide InsertEngine;
  }

  /** Subscribing registers the next id with what it came with, and keeps all indexes in agreement. */
  lemma {:induction false} SubscribeKeepsInv(
    b: Broker, conn: ConnId, p: SubjectPattern, group: Option<string>, handle: HandleId, addr: nat)
    requires Inv(b) && ValidPattern(p) && FreshAddr(b, addr)
    ensures var b' := Subscribe(b, conn, p, group, handle, addr);
            && Inv(b') && b.nextId !in b.subs && b.nextId in b'.subs && b'.subs - {b.nextId} == b.subs
            && b'.subs[b.nextId].conn == conn && b'.subs[b.nextId].pattern == p
            && b'.subs[b.nextId].group == group && b'.subs[b.nextId].handle == handle
  {
    SubscribeRecord(b, conn, p, group, handle, addr);
    hide Subscribe;
    var b' := Subscribe(b, conn, p, group, handle, addr);
    forall part ensures Holds(b', part) {
      match part {
        case Router => SubscribeRouter(b, conn, p, group, handle, addr);
        case RouterOrder => SubscribeOrder(b, conn, p, group, handle, addr);
        case Subscriptions =>
          assert Holds(b, Subscriptions);
          SubscribeKeepsSubs(b, conn, p, group, handle, addr);
        case Connections => SubscribeConnections(b, conn, p, group, handle, addr);
        case QueueGroups => SubscribeGroups(b, conn, p, group, handle, addr);
        case Keys => SubscribeKeys(b, conn, p, group, handle, addr);
        case Counter => SubscribeKeys(b, conn, p, group, handle, addr);
        case Cache => assert Holds(b, Cache);
      }
    }
  }

  lemma {:induction false} RouterAfterAdd(e: Engine, subs: map<SubId, Subscription>, sub: Subscription)
    requires EngineInv(e, Patterns(subs)) && ValidPattern(sub.pattern) && sub.id !in subs
    ensures EngineInv(InsertEngine(e, sub.pattern, sub.id), Patterns(subs[sub.id := sub]))
  {
    InsertKeepsInv(e, Patterns(subs), sub.pattern, sub.id);
    assert Patterns(subs[sub.id := sub]) == Patterns(subs)[sub.id := sub.pattern];
  }

  // ---- unsubscribe ----

  lemma {:induction false} UnsubscribeKeepsConns(b: Broker, id: SubId)
    requires ConnInv(b.subs, b.byConn) && id in b.subs
    ensures ConnInv(Unsubscribe(b, id).subs, Unsubscribe(b, id).byConn)
  {
    var b' := Unsubscribe(b, id);
    forall c ensures Indexes(ConnList(b'.byConn, c), ConnIds(b'.subs, c)) {
      assert Indexes(ConnList(b.byConn, c), ConnIds(b.subs, c));
      if c == b.subs[id].conn {
        IndexesWithout(ConnList(b.byConn, c), ConnIds(b.subs, c), id);
        assert ConnIds(b'.subs, c) == ConnIds(b.subs, c) - {id};
      } else {
        assert ConnIds(b'.subs, c) == ConnIds(b.subs, c);
      }
    }
  }

  lemma {:induction false} UnsubscribeKeepsGroups(b: Broker, id: SubId)
    requires SubsInv(b) && GroupInv(b.subs, b.groups) && KeyInv(b.keys) && id in b.subs
    ensures GroupInv(Unsubscribe(b, id).subs, Unsubscribe(b, id).groups)
  {
    var b' := Unsubscribe(b, id);
    assert SubOk(id, b.subs[id], b.keys);
    forall k ensures Indexes(Members(b'.groups, k), GroupIds(b'.subs, k)) {
      assert Indexes(Members(b.groups, k), GroupIds(b.subs, k));
      if b.subs[id].key.Some? && k == b.subs[id].key.value.key {
        IndexesWithout(Members(b.groups, k), GroupIds(b.subs, k), id);
        assert GroupIds(b'.subs, k) == GroupIds(b.subs, k) - {id};
      } else {
        assert GroupIds(b'.subs, k) == GroupIds(b.subs, k);
      }
    }
  }

  /** Unsubscribing takes out its own id, keeps every other subscription as it was, and all indexes in agreement. */
  lemma {:induction false} UnsubscribeKeepsInv(b: Broker, id: SubId)
    requires Inv(b)
    ensures Inv(Unsubscribe(b, id))
    ensures Unsubscribe(b, id).subs == b.subs - {id}
  {
    hide RemoveEngine, EngineInv, Ordered, ConnInv, GroupInv, KeyInv, SubsInv, CacheInv, Without;
    Open(b);
    if id in b.subs {
      var b' := Unsubscribe(b, id);
      UnsubscribeKeepsConns(b, id);
      UnsubscribeKeepsGroups(b, id);
      UnsubscribeKeepsSubs(b, id);
      RouterAfterRemove(b.router, b.subs, id);
      RemoveKeepsOrder(b.router, b.subs[id].pattern, id);
      assert b.subs.Keys == b'.subs.Keys + {id};
      Close(b');
    } else {
      assert b.subs - {id} == b.subs;
    }
  }

  lemma {:induction false} UnsubscribeKeepsSubs(b: Broker, id: SubId)
    requires SubsInv(b) && id in b.subs
    ensures SubsInv(Unsubscribe(b, id))
  {
    hide RemoveEngine, Without;
    var b' := Unsubscribe(b, id);
    forall i | i in b'.subs ensures i < b'.nextId && SubOk(i, b'.subs[i], b'.keys) {
      assert SubOk(i, b.subs[i], b.keys);
    }
  }

  lemma {:induction false} RouterAfterRemove(e: Engine, subs: map<SubId, Subscription>, id: SubId)
    requires EngineInv(e, Patterns(subs)) && id in subs
    ensures EngineInv(RemoveEngine(e, subs[id].pattern, id), Patterns(subs - {id}))
  {
    var live := Patterns(subs);
    assert id in live && ValidPattern(live[id]);
    RemoveKeepsInv(e, live, live[id], id);
    assert Patterns(subs - {id}) == RemoveLive(live, live[id], id);
  }

  // ---- remove_connection ----

  lemma {:induction false} RemoveManyKeepsInv(e: Engine, subs: map<SubId, Subscription>, ids: seq<SubId>)
    requires EngineInv(e, Patterns(subs)) && NoDup(ids)
    requires forall i :: 0 <= i < |ids| ==> ids[i] in subs
    ensures EngineInv(RemoveMany(e, subs, ids), Patterns(Keep(subs, ids)))
  {
    if ids == [] {
      assert Keep(subs, ids) == subs;
    } else {
      var before, last := ids[..|ids| - 1], ids[|ids| - 1];
      RemoveManyKeepsInv(e, subs, before);
      KeepAppend(subs, ids);
      RouterAfterRemove(RemoveMany(e, subs, before), Keep(subs, before), last);
    }
  }

  lemma {:induction false} RemoveManyKeepsOrder(e: Engine, subs: map<SubId, Subscription>, ids: seq<SubId>)
    requires Ordered(e)
    ensures Ordered(RemoveMany(e, subs, ids))
  {
    if ids != [] {
      var before, last := ids[..|ids| - 1], ids[|ids| - 1];
      RemoveManyKeepsOrder(e, subs, before);
      if last in subs {
        RemoveKeepsOrder(RemoveMany(e, subs, before), subs[last].pattern, last);
      }
    }
  }

  lemma {:induction false} KeepAppend(subs: map<SubId, Subscription>, ids: seq<SubId>)
    requires ids != [] && NoDup(ids) && ids[|ids| - 1] in subs
    ensures Keep(subs, ids) == Keep(subs, ids[..|ids| - 1]) - {ids[|ids| - 1]}
    ensures ids[|ids| - 1] in Keep(subs, ids[..|ids| - 1])
  {
    var before, last := ids[..|ids| - 1], ids[|ids| - 1];
    assert ids == before + [last] && last !in before;
  }

  lemma {:induction false} ConnListLive(b: Broker, conn: ConnId)
    requires Inv(b)
    ensures forall i :: 0 <= i < |ConnList(b.byConn, conn)| ==> ConnList(b.byConn, conn)[i] in b.subs
    ensures forall id :: id in ConnList(b.byConn, conn) <==> id in b.subs && b.subs[id].conn == conn
  {
    Open(b);
    var list := ConnList(b.byConn, conn);
    assert Indexes(list, ConnIds(b.subs, conn));
    forall i | 0 <= i < |list| ensures list[i] in b.subs {
      assert list[i] in list;
    }
  }

  lemma {:induction false} DroppedMembers(
    groups: map<GroupKey, Group>, touched: set<GroupKey>, ids: seq<SubId>, k: GroupKey)
    ensures Members(DropMembers(groups, touched, ids), k)
         == if k in touched then WithoutAll(Members(groups, k), ids) else Members(groups, k)
  {
  }

  /** Cleaning up one more group of a removed subscription. */
  lemma {:induction false} DropOneMore(
    groups: map<GroupKey, Group>, keys: map<GroupKey, KeyRef>, touched: set<GroupKey>, ids: seq<SubId>, k: GroupKey)
    requires keys.Keys == groups.Keys
    ensures var before, after := DropMembers(groups, touched, ids), DropMembers(groups, touched + {k}, ids);
            var keysBefore := DropKeys(keys, groups, touched, ids);
            var keysAfter := DropKeys(keys, groups, touched + {k}, ids);
            if k !in before then after == before && keysAfter == keysBefore
            else
              var kept := before[k].(members := WithoutAll(before[k].members, ids));
              if kept.members == [] then after == before - {k} && keysAfter == keysBefore - {k}
              else after == before[k := kept] && keysAfter == keysBefore
  {
    if k in groups {
      WithoutAllTwice(groups[k].members, ids);
    }
    hide WithoutAll;
    var before, after := DropMembers(groups, touched, ids), DropMembers(groups, touched + {k}, ids);
    forall j | j != k ensures Survives(groups, touched + {k}, ids, j) <==> Survives(groups, touched, ids, j) {
    }
    assert after - {k} == before - {k};
  }

  lemma {:induction false} KeptGroupIds(subs: map<SubId, Subscription>, ids: seq<SubId>, k: GroupKey)
    ensures GroupIds(Keep(subs, ids), k) == set id | id in GroupIds(subs, k) && id !in ids
    ensures k !in Touched(subs, ids) ==> GroupIds(Keep(subs, ids), k) == GroupIds(subs, k)
  {
  }

  /** A group that no removed subscription belongs to stays as it is; the others lose the removed ones. */
  lemma {:induction false} GroupAfterRemoval(
    subs: map<SubId, Subscription>, groups: map<GroupKey, Group>, ids: seq<SubId>, k: GroupKey)
    requires Indexes(Members(groups, k), GroupIds(subs, k))
    ensures Indexes(Members(DropMembers(groups, Touched(subs, ids), ids), k), GroupIds(Keep(subs, ids), k))
  {
    KeptGroupIds(subs, ids, k);
    DroppedMembers(groups, Touched(subs, ids), ids, k);
    IndexesWithoutAll(Members(groups, k), GroupIds(subs, k), ids);
  }

  lemma {:induction false} RemoveConnectionKeepsConns(
    subs: map<SubId, Subscription>, byConn: map<ConnId, seq<SubId>>, conn: ConnId)
    requires ConnInv(subs, byConn)
    ensures ConnInv(Keep(subs, ConnList(byConn, conn)), byConn - {conn})
  {
    var ids := ConnList(byConn, conn);
    var subs', byConn' := Keep(subs, ids), byConn - {conn};
    assert Indexes(ids, ConnIds(subs, conn));
    forall c ensures Indexes(ConnList(byConn', c), ConnIds(subs', c)) {
      assert Indexes(ConnList(byConn, c), ConnIds(subs, c));
      if c == conn {
        assert ConnIds(subs', c) == {};
      } else {
        assert ConnIds(subs', c) == ConnIds(subs, c);
      }
    }
  }

  lemma {:induction false} SizeAfterRemoval(subs: map<SubId, Subscription>, ids: seq<SubId>, conn: ConnId)
    requires Indexes(ids, ConnIds(subs, conn))
    ensures NoDup(ids)
    ensures |Keep(subs, ids)| == |subs| - |ids|
  {
    var gone := ConnIds(subs, conn);
    NoDupSize(ids, gone);
    assert subs.Keys == Keep(subs, ids).Keys + gone;
  }

  lemma {:induction false} RemoveConnectionKeepsSubs(b: Broker, conn: ConnId)
    requires SubsInv(b) && GroupInv(b.subs, b.groups) && KeyInv(b.keys) && b.keys.Keys == b.groups.Keys
    ensures var b' := RemoveConnection(b, conn); SubsInv(b') && KeyInv(b'.keys) && b'.keys.Keys == b'.groups.Keys
  {
    var ids := ConnList(b.byConn, conn);
    var b' := RemoveConnection(b, conn);
    forall id | id in b'.subs ensures id < b'.nextId && SubOk(id, b'.subs[id], b'.keys) {
      assert SubOk(id, b.subs[id], b.keys);
      if b.subs[id].key.Some? {
        var k := b.subs[id].key.value.key;
        assert Indexes(Members(b.groups, k), GroupIds(b.subs, k));
        assert id in WithoutAll(Members(b.groups, k), ids);
      }
    }
  }

  lemma {:induction false} RemoveConnectionKeepsInv(b: Broker, conn: ConnId)
    requires Inv(b)
    ensures Inv(RemoveConnection(b, conn))
  {
    Open(b);
    ConnListLive(b, conn);
    var b' := RemoveConnection(b, conn);
    RemoveConnectionKeepsConns(b.subs, b.byConn, conn);
    RemoveConnectionKeepsSubs(b, conn);
    assert Indexes(ConnList(b.byConn, conn), ConnIds(b.subs, conn));
    SizeAfterRemoval(b.subs, ConnList(b.byConn, conn), conn);
    RemoveManyKeepsInv(b.router, b.subs, ConnList(b.byConn, conn));
    RemoveManyKeepsOrder(b.router, b.subs, ConnList(b.byConn, conn));
    forall k ensures Indexes(Members(b'.groups, k), GroupIds(b'.subs, k)) {
      assert Indexes(Members(b.groups, k), GroupIds(b.subs, k));
      GroupAfterRemoval(b.subs, b.groups, ConnList(b.byConn, conn), k);
    }
    Close(b');
  }
}
