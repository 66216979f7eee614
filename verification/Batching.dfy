/**
 Publishing in batches. A batch serves the queue groups item by item and collects the fan-out per
 subscription, flushing each subscription's messages at the end in whatever order the hash map yields.
 */
module Batching {
  import opened Subjects
  import opened Seqs
  import opened Tries
  import opened Routing
  import opened Delivery
  import opened BrokerState
  import opened Publishing
  import RoundRobin

  // ---- the specification ----

  function Ids(b: Broker, c: Content): seq<SubId> {
    MatchIds(b.router, c.subject)
  }

  /** The groups after serving the batch, and the group deliveries in order: one selection per matched member. */
  function QueuePlan(b: Broker, items: seq<Content>): (Groups, seq<Attempt>) {
    if items == [] then (b.groups, [])
    else
      var c := items[|items| - 1];
      var (groups, tried) := QueuePlan(b, items[..|items| - 1]);
      var (after, chosen) := SelectAll(groups, QueueRefs(b.subs, Ids(b, c)));
      (after, tried + Attempts(b.subs, chosen, c))
  }

  /** The items of the batch that match subscription `id`. */
  function Mine(b: Broker, items: seq<Content>, id: SubId): seq<Content> {
    if items == [] then []
    else
      var c := items[|items| - 1];
      Mine(b, items[..|items| - 1], id) + if id in Ids(b, c) then [c] else []
  }

  function ToAttempts(subs: Subs, id: SubId, cs: seq<Content>): (r: seq<Attempt>)
    requires id in subs
    ensures |r| == |cs|
    ensures forall i :: 0 <= i < |cs| ==> r[i] == AttemptFor(subs, id, cs[i])
  {
    seq(|cs|, i requires 0 <= i < |cs| => AttemptFor(subs, id, cs[i]))
  }

  function FlushAll(b: Broker, o: Oracle, out: Out, items: seq<Content>, order: seq<SubId>): Out {
    if order == [] then out
    else
      var id := order[|order| - 1];
      var before := FlushAll(b, o, out, items, order[..|order| - 1]);
      if id in b.subs then Flush(o, before, ToAttempts(b.subs, id, Mine(b, items, id))) else before
  }

  /** A subscription is to be flushed exactly when it is outside groups and has something pending. */
  ghost predicate FlushedIff(b: Broker, items: seq<Content>, order: seq<SubId>, id: SubId) {
    id in order <==> id in b.subs && b.subs[id].key.None? && Mine(b, items, id) != []
  }

  /** Any order of the fan-out subscriptions that have something pending. */
  ghost predicate FlushOrder(b: Broker, items: seq<Content>, order: seq<SubId>) {
    NoDup(order) && forall id :: FlushedIff(b, items, order, id)
  }

  /** `publish_batch`. */
  function Batch(b: Broker, o: Oracle, out: Out, items: seq<Content>, order: seq<SubId>): (Broker, Out) {
    var (groups, queued) := QueuePlan(b, items);
    var out1 := out.(published := out.published + |items|);
    (b.(groups := groups), FlushAll(b, o, DeliverAll(o, out1, queued), items, order))
  }

  /** The items published one by one. */
  function PublishAll(b: Broker, o: Oracle, out: Out, items: seq<Content>): (Broker, Out) {
    if items == [] then (b, out)
    else
      var (b1, out1) := PublishAll(b, o, out, items[..|items| - 1]);
      Publish(b1, o, out1, items[|items| - 1])
  }

  ghost predicate ValidItems(items: seq<Content>) {
    forall i :: 0 <= i < |items| ==> ValidSubject(items[i].subject)
  }

  // ---- counting choices ----

  lemma {:induction false} GotCount(subs: Subs, ids: seq<SubId>, c: Content, id: SubId)
    requires forall i :: 0 <= i < |ids| ==> ids[i] in subs
    ensures |Got(Attempts(subs, ids, c), id)| == Count(ids, id)
    ensures forall x :: x in Got(Attempts(subs, ids, c), id) ==> x == c
  {
    if ids != [] {
      var before, last := ids[..|ids| - 1], ids[|ids| - 1];
      GotCount(subs, before, c, id);
      var tried := Attempts(subs, before, c);
      assert (tried + [AttemptFor(subs, last, c)])[..|tried|] == tried;
    }
  }

  lemma {:induction false} GotOneOrNone(subs: Subs, ids: seq<SubId>, c: Content, id: SubId)
    requires forall i :: 0 <= i < |ids| ==> ids[i] in subs
    requires Count(ids, id) <= 1
    ensures Got(Attempts(subs, ids, c), id) == if Count(ids, id) == 1 then [c] else []
  {
    GotCount(subs, ids, c, id);
    var got := Got(Attempts(subs, ids, c), id);
    if |got| == 1 {
      assert got[0] in got;
    }
  }

  lemma {:induction false} CountAppend(s: seq<SubId>, x: SubId, id: SubId)
    ensures Count(s + [x], id) == Count(s, id) + if x == id then 1 else 0
  {
    assert (s + [x])[..|s|] == s;
  }

  lemma {:induction false} OccurrencesAppend(refs: seq<KeyRef>, ref: KeyRef, k: GroupKey)
    ensures Occurrences(refs + [ref], k) == Occurrences(refs, k) + if ref.key == k then 1 else 0
  {
    assert (refs + [ref])[..|refs|] == refs;
  }

  ghost predicate ChosenFrom(subs: Subs, refs: seq<KeyRef>, chosen: seq<SubId>) {
    && |chosen| == |refs|
    && forall i :: 0 <= i < |refs| ==> chosen[i] in GroupIds(subs, refs[i].key)
  }

  /** A member is only ever chosen for its own group. */
  lemma {:induction false} CountIsPicks(subs: Subs, refs: seq<KeyRef>, chosen: seq<SubId>, k: GroupKey, id: SubId)
    requires ChosenFrom(subs, refs, chosen) && id in GroupIds(subs, k)
    ensures Count(chosen, id) == Count(PicksOf(refs, chosen, k), id)
  {
    if refs != [] {
      var n := |refs| - 1;
      CountIsPicks(subs, refs[..n], chosen[..n], k, id);
      var picks := PicksOf(refs[..n], chosen[..n], k);
      CountAppend(picks, chosen[n], id);
      assert chosen[n] in GroupIds(subs, refs[n].key);
      assert PicksOf(refs, chosen, k) == if refs[n].key == k then picks + [chosen[n]] else picks;
    }
  }

  function MatchedIn(subs: Subs, ids: seq<SubId>, k: GroupKey): set<SubId> {
    set id | id in ids && id in GroupIds(subs, k)
  }

  /** A matched group is mentioned once per matched member. */
  lemma {:induction false} MentionsOf(subs: Subs, ids: seq<SubId>, k: GroupKey)
    requires NoDup(ids)
    ensures Occurrences(QueueRefs(subs, ids), k) == |MatchedIn(subs, ids, k)|
  {
    if ids == [] {
      assert MatchedIn(subs, ids, k) == {};
    } else {
      MentionsOf(subs, ids[..|ids| - 1], k);
      MatchedAppend(subs, ids, k);
      RefsAppend(subs, ids, k);
    }
  }

  lemma {:induction false} MatchedAppend(subs: Subs, ids: seq<SubId>, k: GroupKey)
    requires NoDup(ids) && ids != []
    ensures |MatchedIn(subs, ids, k)|
         == |MatchedIn(subs, ids[..|ids| - 1], k)| + if ids[|ids| - 1] in GroupIds(subs, k) then 1 else 0
  {
    var before, last := ids[..|ids| - 1], ids[|ids| - 1];
    assert ids == before + [last] && last !in before;
    assert MatchedIn(subs, ids, k) == MatchedIn(subs, before, k) + if last in GroupIds(subs, k) then {last} else {};
  }

  lemma {:induction false} RefsAppend(subs: Subs, ids: seq<SubId>, k: GroupKey)
    requires ids != []
    ensures Occurrences(QueueRefs(subs, ids), k)
         == Occurrences(QueueRefs(subs, ids[..|ids| - 1]), k) + if ids[|ids| - 1] in GroupIds(subs, k) then 1 else 0
  {
    var before, last := ids[..|ids| - 1], ids[|ids| - 1];
    if last in subs && subs[last].key.Some? {
      assert QueueRefs(subs, ids) == QueueRefs(subs, before) + [subs[last].key.value];
      OccurrencesAppend(QueueRefs(subs, before), subs[last].key.value, k);
    } else {
      assert QueueRefs(subs, ids) == QueueRefs(subs, before);
    }
  }

  // ---- every member gets every matching item ----

  /** Where the counter stands before round `t`. */
  function RoundStart(x: RoundRobin.Word, n: nat, t: nat): RoundRobin.Word {
    RoundRobin.Advance(x, t * n)
  }

  lemma {:induction false} NextRound(x: RoundRobin.Word, n: nat, t: nat)
    ensures RoundStart(x, n, t + 1) == RoundRobin.Advance(RoundStart(x, n, t), n)
  {
    RoundRobin.MulDistributes(t, 1, n);
    RoundRobin.AdvanceAdds(x, t * n, n);
  }

  lemma {:induction false} FirstRound(x: RoundRobin.Word, n: nat)
    ensures RoundRobin.Advance(x, 0) == x && RoundStart(x, n, 0) == x
  {
  }

  /** The next `q` rounds of group `k` are whole: its size divides the counter's range, or none passes the wrap. */
  ghost predicate WholeRounds(groups: Groups, k: GroupKey, q: nat) {
    && k in groups
    && var n := |groups[k].members|;
       n > 0 && (RoundRobin.USIZE % n == 0
                 || forall t :: 0 <= t < q ==> RoundStart(groups[k].index, n, t) + n <= RoundRobin.USIZE)
  }

  lemma {:induction false} FewerRounds(groups: Groups, k: GroupKey, p: nat, q: nat)
    requires WholeRounds(groups, k, q) && p <= q
    ensures WholeRounds(groups, k, p)
  {
  }

  lemma {:induction false} RoundOf(groups: Groups, k: GroupKey, q: nat, t: nat)
    requires WholeRounds(groups, k, q) && t < q
    ensures var n := |groups[k].members|; RoundRobin.Smooth(RoundStart(groups[k].index, n, t), n, n)
  {
  }

  lemma {:induction false} MemberOf(b: Broker, k: GroupKey, id: SubId)
    requires Inv(b) && id in GroupIds(b.subs, k)
    ensures k in b.groups && id in b.groups[k].members
  {
    assert Holds(b, QueueGroups);
    assert Indexes(Members(b.groups, k), GroupIds(b.subs, k));
    assert id in Members(b.groups, k);
  }

  /** Serving a group once per member reaches each member once, when the round is smooth. */
  lemma {:induction false} ServeEachOnce(b: Broker, groups: Groups, refs: seq<KeyRef>, k: GroupKey, id: SubId)
    requires GroupInv(b.subs, groups) && AllPopulated(groups, refs)
    requires k in groups && id in GroupIds(b.subs, k) && id in groups[k].members
    requires Occurrences(refs, k) == 0 || Occurrences(refs, k) == |groups[k].members|
    requires RoundRobin.Smooth(groups[k].index, Occurrences(refs, k), |groups[k].members|)
    ensures Count(SelectAll(groups, refs).1, id) == if Occurrences(refs, k) == 0 then 0 else 1
  {
    var chosen := SelectAll(groups, refs).1;
    var members := groups[k].members;
    ChosenLive(b.(groups := groups), refs);
    assert Indexes(Members(groups, k), GroupIds(b.subs, k));
    var r :| 0 <= r < |members| && members[r] == id;
    CountIsPicks(b.subs, refs, chosen, k, id);
    PicksWalk(groups, refs, k);
    WalkCount(members, groups[k].index, Occurrences(refs, k), r);
    RoundRobin.LandsSmoothly(groups[k].index, Occurrences(refs, k), |members|, r);
    RoundRobin.HitsAreFair(groups[k].index, Occurrences(refs, k), |members|, r);
    Quotients(|members|);
  }

  lemma {:induction false} Quotients(n: nat)
    requires n > 0
    ensures n / n == 1 && n % n == 0 && 0 / n == 0 && 0 % n == 0
  {
    RoundRobin.DivModUnique(n, n, 1, 0);
    RoundRobin.DivModUnique(0, n, 0, 0);
  }

  /** In a consistent broker a match mentions a group for all of its members or for none. */
  lemma {:induction false} AllOrNothing(b: Broker, c: Content, k: GroupKey, id: SubId)
    requires Inv(b) && ValidSubject(c.subject) && id in GroupIds(b.subs, k)
    ensures k in b.groups
    ensures Occurrences(QueueRefs(b.subs, Ids(b, c)), k) == if id in Ids(b, c) then |b.groups[k].members| else 0
  {
    var ids := Ids(b, c);
    MatchScan(b, c.subject);
    MentionsOf(b.subs, ids, k);
    assert Holds(b, QueueGroups);
    assert Indexes(Members(b.groups, k), GroupIds(b.subs, k));
    assert id in Members(b.groups, k);
    forall x | x in GroupIds(b.subs, k) ensures x in ids <==> id in ids {
      KeySays(b, x);
      KeySays(b, id);
      SamePattern(b, x, id);
    }
    NoDupSize(b.groups[k].members, GroupIds(b.subs, k));
    assert MatchedIn(b.subs, ids, k) == if id in ids then GroupIds(b.subs, k) else {};
  }

  lemma {:induction false} PlanKeepsMembers(b: Broker, items: seq<Content>)
    ensures SameMembers(QueuePlan(b, items).0, b.groups)
  {
    if items != [] {
      PlanKeepsMembers(b, items[..|items| - 1]);
      SelectKeepsMembers(QueuePlan(b, items[..|items| - 1]).0, QueueRefs(b.subs, Ids(b, items[|items| - 1])));
    }
  }

  lemma {:induction false} BatchKeepsInv(b: Broker, o: Oracle, out: Out, items: seq<Content>, order: seq<SubId>)
    requires Inv(b)
    ensures Inv(Batch(b, o, out, items, order).0)
  {
    PlanKeepsMembers(b, items);
    SelectKeepsInv(b, QueuePlan(b, items).0);
  }

  lemma {:induction false} PopulatedStays(a: Groups, b: Groups, refs: seq<KeyRef>)
    requires SameMembers(a, b) && AllPopulated(b, refs)
    ensures AllPopulated(a, refs)
  {
    forall i | 0 <= i < |refs| ensures Members(a, refs[i].key) != [] {
      assert Members(b, refs[i].key) != [];
    }
  }

  /** A batch moves a group's counter on by one round per item that matches it. */
  lemma {:induction false} PlanAdvances(b: Broker, items: seq<Content>, k: GroupKey, id: SubId)
    requires Inv(b) && ValidItems(items) && id in GroupIds(b.subs, k)
    ensures k in b.groups && k in QueuePlan(b, items).0
    ensures QueuePlan(b, items).0[k].index
         == RoundStart(b.groups[k].index, |b.groups[k].members|, |Mine(b, items, id)|)
  {
    hide Inv;
    hide Ids;
    hide RoundStart;
    hide QueueRefs;
    hide SelectAll;
    MemberOf(b, k, id);
    FirstRound(b.groups[k].index, |b.groups[k].members|);
    if items != [] {
      var before, c := items[..|items| - 1], items[|items| - 1];
      assert ValidItems(before);
      PlanAdvances(b, before, k, id);
      PlanKeepsMembers(b, before);
      var groups := QueuePlan(b, before).0;
      var refs := QueueRefs(b.subs, Ids(b, c));
      AllOrNothing(b, c, k, id);
      RefsOk(b, Ids(b, c));
      PopulatedStays(groups, b.groups, refs);
      SelectAdvances(groups, refs, k);
      FirstRound(groups[k].index, |b.groups[k].members|);
      NextRound(b.groups[k].index, |b.groups[k].members|, |Mine(b, before, id)|);
    }
  }

  lemma {:induction false} GroupInvStays(b: Broker, groups: Groups)
    requires GroupInv(b.subs, b.groups) && SameMembers(groups, b.groups)
    ensures GroupInv(b.subs, groups)
  {
    forall k ensures Indexes(Members(groups, k), GroupIds(b.subs, k)) {
      assert Indexes(Members(b.groups, k), GroupIds(b.subs, k));
    }
  }

  /** One item serves each member of a matched group exactly once, when its round is smooth. */
  lemma {:induction false} PlanStep(b: Broker, groups: Groups, c: Content, k: GroupKey, id: SubId)
    requires Inv(b) && ValidSubject(c.subject) && SameMembers(groups, b.groups)
    requires id in GroupIds(b.subs, k) && k in groups && groups[k].members != []
    requires id in Ids(b, c) ==> RoundRobin.Smooth(groups[k].index, |groups[k].members|, |groups[k].members|)
    ensures var chosen := SelectAll(groups, QueueRefs(b.subs, Ids(b, c))).1;
            Got(Attempts(b.subs, chosen, c), id) == if id in Ids(b, c) then [c] else []
  {
    var refs := QueueRefs(b.subs, Ids(b, c));
    var chosen := SelectAll(groups, refs).1;
    MemberOf(b, k, id);
    AllOrNothing(b, c, k, id);
    RefsOk(b, Ids(b, c));
    PopulatedStays(groups, b.groups, refs);
    assert Holds(b, QueueGroups);
    GroupInvStays(b, groups);
    ServeEachOnce(b, groups, refs, k, id);
    ChosenLive(b.(groups := groups), refs);
    GotOneOrNone(b.subs, chosen, c, id);
  }

  /**
   A batch makes n selections per item for a matched group of n members, so every member gets every
   matching item once, in item order.
   */
  lemma {:induction false} BatchReachesEveryMember(b: Broker, items: seq<Content>, k: GroupKey, id: SubId)
    requires Inv(b) && ValidItems(items) && id in GroupIds(b.subs, k)
    requires WholeRounds(b.groups, k, |Mine(b, items, id)|)
    ensures Got(QueuePlan(b, items).1, id) == Mine(b, items, id)
  {
    if items != [] {
      var before, c := items[..|items| - 1], items[|items| - 1];
      assert ValidItems(before);
      FewerRounds(b.groups, k, |Mine(b, before, id)|, |Mine(b, items, id)|);
      BatchReachesEveryMember(b, before, k, id);
      PlanKeepsMembers(b, before);
      PlanAdvances(b, before, k, id);
      var (groups, tried) := QueuePlan(b, before);
      if id in Ids(b, c) {
        RoundOf(b.groups, k, |Mine(b, items, id)|, |Mine(b, before, id)|);
      }
      PlanStep(b, groups, c, k, id);
      GotConcat(tried, Attempts(b.subs, SelectAll(groups, QueueRefs(b.subs, Ids(b, c))).1, c), id);
    }
  }

  // ---- exactly when ----

  /** What item `i` of a batch sends to member `id` when the groups are served. */
  function ItemGot(b: Broker, items: seq<Content>, i: nat, id: SubId): seq<Content>
    requires i < |items|
  {
    var groups := QueuePlan(b, items[..i]).0;
    Got(Attempts(b.subs, SelectAll(groups, QueueRefs(b.subs, Ids(b, items[i]))).1, items[i]), id)
  }

  /** Item `i` reaches every member of group `k` once if it matches, and none otherwise. */
  ghost predicate ItemReachesAll(b: Broker, items: seq<Content>, i: nat, k: GroupKey)
    requires i < |items|
  {
    forall id :: id in GroupIds(b.subs, k) ==>
      ItemGot(b, items, i, id) == if id in Ids(b, items[i]) then [items[i]] else []
  }

  lemma {:induction false} CountSome(s: seq<SubId>, i: nat)
    requires i < |s|
    ensures Count(s, s[i]) >= 1
  {
    if i < |s| - 1 {
      CountSome(s[..|s| - 1], i);
    }
  }

  lemma {:induction false} CountTwice(s: seq<SubId>, i: nat, j: nat)
    requires i < j < |s| && s[i] == s[j]
    ensures Count(s, s[i]) >= 2
  {
    if j < |s| - 1 {
      CountTwice(s[..|s| - 1], i, j);
    } else {
      CountSome(s[..|s| - 1], i);
    }
  }

  lemma {:induction false} WalkAt(members: seq<SubId>, start: RoundRobin.Word, m: nat, i: nat)
    requires members != [] && i < m
    ensures Walk(members, start, m)[i] == members[RoundRobin.Rem(RoundRobin.Advance(start, i), |members|)]
  {
    if i < m - 1 {
      WalkAt(members, start, m - 1, i);
    }
  }

  /** A rough round gives some member the same item twice. */
  lemma {:induction false} RoughRoundDoubles(b: Broker, groups: Groups, c: Content, k: GroupKey, id: SubId)
    returns (twice: SubId)
    requires Inv(b) && ValidSubject(c.subject) && SameMembers(groups, b.groups)
    requires id in GroupIds(b.subs, k) && id in Ids(b, c) && k in groups && groups[k].members != []
    requires !RoundRobin.Smooth(groups[k].index, |groups[k].members|, |groups[k].members|)
    ensures twice in GroupIds(b.subs, k)
    ensures |Got(Attempts(b.subs, SelectAll(groups, QueueRefs(b.subs, Ids(b, c))).1, c), twice)| >= 2
  {
    var refs := QueueRefs(b.subs, Ids(b, c));
    var chosen := SelectAll(groups, refs).1;
    var members, start := groups[k].members, groups[k].index;
    AllOrNothing(b, c, k, id);
    RefsOk(b, Ids(b, c));
    PopulatedStays(groups, b.groups, refs);
    assert Holds(b, QueueGroups);
    GroupInvStays(b, groups);
    ChosenLive(b.(groups := groups), refs);
    PicksWalk(groups, refs, k);
    var i, j := RoundRobin.RoughRoundRepeats(start, |members|);
    WalkAt(members, start, |members|, i);
    WalkAt(members, start, |members|, j);
    CountTwice(Walk(members, start, |members|), i, j);
    twice := Walk(members, start, |members|)[i];
    assert Indexes(Members(groups, k), GroupIds(b.subs, k));
    CountIsPicks(b.subs, refs, chosen, k, twice);
    GotCount(b.subs, chosen, c, twice);
  }

  /** Round `t` of a member's items is one of the batch's items. */
  lemma {:induction false} ItemOfRound(b: Broker, items: seq<Content>, id: SubId, t: nat) returns (i: nat)
    requires t < |Mine(b, items, id)|
    ensures i < |items| && id in Ids(b, items[i]) && |Mine(b, items[..i], id)| == t
  {
    hide Ids;
    var n := |items| - 1;
    if t < |Mine(b, items[..n], id)| {
      i := ItemOfRound(b, items[..n], id, t);
      assert items[..n][..i] == items[..i] && items[..n][i] == items[i];
    } else {
      i := n;
    }
  }

  lemma {:induction false} MineBefore(b: Broker, items: seq<Content>, id: SubId, i: nat)
    requires i < |items|
    ensures |Mine(b, items[..i], id)| + (if id in Ids(b, items[i]) then 1 else 0) <= |Mine(b, items, id)|
  {
    hide Ids;
    var n := |items| - 1;
    if i < n {
      MineBefore(b, items[..n], id, i);
      assert items[..n][..i] == items[..i] && items[..n][i] == items[i];
    }
  }

  lemma {:induction false} ValidBefore(items: seq<Content>, i: nat)
    requires ValidItems(items) && i < |items|
    ensures ValidItems(items[..i]) && ValidSubject(items[i].subject)
  {
  }

  lemma {:induction false} SmoothItemReachesAll(b: Broker, items: seq<Content>, i: nat, k: GroupKey, id: SubId)
    requires Inv(b) && ValidItems(items) && id in GroupIds(b.subs, k) && i < |items|
    requires WholeRounds(b.groups, k, |Mine(b, items, id)|)
    ensures ItemReachesAll(b, items, i, k)
  {
    ValidBefore(items, i);
    PlanKeepsMembers(b, items[..i]);
    PlanAdvances(b, items[..i], k, id);
    MineBefore(b, items, id, i);
    if id in Ids(b, items[i]) {
      RoundOf(b.groups, k, |Mine(b, items, id)|, |Mine(b, items[..i], id)|);
    }
    MemberOf(b, k, id);
    AllOrNothing(b, items[i], k, id);
    forall x | x in GroupIds(b.subs, k)
      ensures ItemGot(b, items, i, x) == if x in Ids(b, items[i]) then [items[i]] else []
    {
      AllOrNothing(b, items[i], k, x);
      PlanStep(b, QueuePlan(b, items[..i]).0, items[i], k, x);
    }
  }

  lemma {:induction false} RoughItemMisses(b: Broker, items: seq<Content>, t: nat, k: GroupKey, id: SubId)
    returns (i: nat)
    requires Inv(b) && ValidItems(items) && id in GroupIds(b.subs, k) && t < |Mine(b, items, id)|
    requires k in b.groups && b.groups[k].members != []
    requires var n := |b.groups[k].members|; !RoundRobin.Smooth(RoundStart(b.groups[k].index, n, t), n, n)
    ensures i < |items| && !ItemReachesAll(b, items, i, k)
  {
    i := ItemOfRound(b, items, id, t);
    ValidBefore(items, i);
    PlanKeepsMembers(b, items[..i]);
    PlanAdvances(b, items[..i], k, id);
    var twice := RoughRoundDoubles(b, QueuePlan(b, items[..i]).0, items[i], k, id);
    assert |ItemGot(b, items, i, twice)| >= 2;
  }

  /**
   Every item of a batch reaches every member of every group it matches exactly once, if and only if each
   group's rounds are whole: its size divides the counter's range, or no round passes the wrap.
   */
  lemma {:induction false} BatchReachesAllIff(b: Broker, items: seq<Content>, k: GroupKey, id: SubId)
    requires Inv(b) && ValidItems(items) && id in GroupIds(b.subs, k)
    ensures (forall i :: 0 <= i < |items| ==> ItemReachesAll(b, items, i, k))
       <==> WholeRounds(b.groups, k, |Mine(b, items, id)|)
  {
    MemberOf(b, k, id);
    var q := |Mine(b, items, id)|;
    if WholeRounds(b.groups, k, q) {
      forall i | 0 <= i < |items| ensures ItemReachesAll(b, items, i, k) {
        SmoothItemReachesAll(b, items, i, k, id);
      }
    } else {
      var n := |b.groups[k].members|;
      var t :| 0 <= t < q && !(RoundStart(b.groups[k].index, n, t) + n <= RoundRobin.USIZE);
      var i := RoughItemMisses(b, items, t, k, id);
    }
  }
}
