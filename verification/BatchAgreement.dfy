/**
 When a batch is its items published one by one. A publish serves a group once per maximal run of its key
 among the matched queue subscriptions, a batch once per mention, so the two agree on a group exactly when
 every mention is a run of its own.
 */
module BatchAgreement {
  import opened Wrappers
  import opened Subjects
  import opened Seqs
  import opened Tries
  import opened Routing
  import opened Delivery
  import opened BrokerState
  import opened Publishing
  import opened Batching
  import opened BatchLaws
  import opened Fairness
  import RoundRobin

  function Refs(b: Broker, c: Content): seq<KeyRef> {
    QueueRefs(b.subs, Ids(b, c))
  }

  /** A publish of `c` serves group `k` as often as a batch does. */
  ghost predicate ServedAlike(b: Broker, c: Content, k: GroupKey) {
    RunStarts(Refs(b, c), k) == Occurrences(Refs(b, c), k)
  }

  // ---- counting what a group takes ----

  function Runs(b: Broker, items: seq<Content>, k: GroupKey): nat {
    if items == [] then 0 else Runs(b, items[..|items| - 1], k) + RunStarts(Refs(b, items[|items| - 1]), k)
  }

  function Mentions(b: Broker, items: seq<Content>, k: GroupKey): nat {
    if items == [] then 0 else Mentions(b, items[..|items| - 1], k) + Occurrences(Refs(b, items[|items| - 1]), k)
  }

  lemma {:induction false} RunsAtMostMentions(refs: seq<KeyRef>, k: GroupKey)
    ensures RunStarts(refs, k) <= Occurrences(refs, k)
  {
    if refs != [] {
      RunsAtMostMentions(refs[..|refs| - 1], k);
    }
  }

  /** Over a whole batch the counts are equal exactly when they are for each item. */
  lemma {:induction false} EqualSums(b: Broker, items: seq<Content>, k: GroupKey)
    ensures Runs(b, items, k) <= Mentions(b, items, k)
    ensures Runs(b, items, k) == Mentions(b, items, k) <==>
            forall i :: 0 <= i < |items| ==> ServedAlike(b, items[i], k)
  {
    hide Refs;
    hide RunStarts;
    hide Occurrences;
    if items != [] {
      var n := |items| - 1;
      EqualSums(b, items[..n], k);
      RunsAtMostMentions(Refs(b, items[n]), k);
      assert forall i :: 0 <= i < n ==> items[..n][i] == items[i];
    }
  }

  lemma {:induction false} RunServes(b: Broker, items: seq<Content>, k: GroupKey)
    requires Inv(b)
    ensures Occurrences(RunRefs(b, items), k) == Runs(b, items, k)
  {
    if items != [] {
      var before, c := items[..|items| - 1], items[|items| - 1];
      RunServes(b, before, k);
      RefsOk(b, Ids(b, c));
      CollapseCounts(Refs(b, c), k);
      OccurrencesConcat(RunRefs(b, before), Served(b, c), k);
    }
  }

  lemma {:induction false} PlanServes(b: Broker, items: seq<Content>, k: GroupKey)
    requires Inv(b)
    ensures GroupAttempts(QueuePlan(b, items).1, b.subs, k) == Mentions(b, items, k)
  {
    if items != [] {
      var before, c := items[..|items| - 1], items[|items| - 1];
      PlanServes(b, before, k);
      PlanKeepsMembers(b, before);
      var (groups, tried) := QueuePlan(b, before);
      PlanChosen(b, groups, c);
      var chosen := SelectAll(groups, Refs(b, c)).1;
      ChosenCount(b.subs, Refs(b, c), chosen, c, k);
      GroupAttemptsConcat(tried, Attempts(b.subs, chosen, c), b.subs, k);
    }
  }

  /** What the subscriptions `ids` got, all told. */
  function GotTotal(attempts: seq<Attempt>, ids: seq<SubId>): nat {
    if ids == [] then 0 else GotTotal(attempts, ids[..|ids| - 1]) + |Got(attempts, ids[|ids| - 1])|
  }

  lemma {:induction false} GotTotalStep(attempts: seq<Attempt>, ids: seq<SubId>)
    requires attempts != [] && NoDup(ids)
    ensures GotTotal(attempts, ids)
         == GotTotal(attempts[..|attempts| - 1], ids) + if attempts[|attempts| - 1].msg.sub in ids then 1 else 0
  {
    if ids != [] {
      var before, last := ids[..|ids| - 1], ids[|ids| - 1];
      assert ids == before + [last] && last !in before;
      GotTotalStep(attempts, before);
    }
  }

  /** What the members of a group got is what the group took. */
  lemma {:induction false} MembersTakeAll(attempts: seq<Attempt>, subs: Subs, k: GroupKey, ids: seq<SubId>)
    requires NoDup(ids) && forall id :: id in ids <==> id in GroupIds(subs, k)
    ensures GotTotal(attempts, ids) == GroupAttempts(attempts, subs, k)
  {
    if attempts == [] {
      NobodyGot(ids);
    } else {
      MembersTakeAll(attempts[..|attempts| - 1], subs, k, ids);
      GotTotalStep(attempts, ids);
    }
  }

  lemma {:induction false} NobodyGot(ids: seq<SubId>)
    ensures GotTotal([], ids) == 0
  {
    if ids != [] {
      NobodyGot(ids[..|ids| - 1]);
    }
  }

  lemma {:induction false} SameTotals(a: seq<Attempt>, b: seq<Attempt>, ids: seq<SubId>)
    requires forall id :: id in ids ==> |Got(a, id)| == |Got(b, id)|
    ensures GotTotal(a, ids) == GotTotal(b, ids)
  {
    if ids != [] {
      assert forall id :: id in ids[..|ids| - 1] ==> id in ids;
      SameTotals(a, b, ids[..|ids| - 1]);
    }
  }

  // ---- the same selections, member by member ----

  /** What one round of selections sends a member: the item, once for each step of the walk that lands on it. */
  lemma {:induction false} RoundSends(
    b: Broker, groups: Groups, refs: seq<KeyRef>, c: Content, k: GroupKey, id: SubId)
    requires GroupInv(b.subs, groups) && AllPopulated(groups, refs) && id in GroupIds(b.subs, k)
    requires k in groups && groups[k].members != []
    ensures var got := Got(Attempts(b.subs, SelectAll(groups, refs).1, c), id);
            && |got| == Count(Walk(groups[k].members, groups[k].index, Occurrences(refs, k)), id)
            && forall x :: x in got ==> x == c
  {
    hide GroupInv;
    hide AllPopulated;
    var chosen := SelectAll(groups, refs).1;
    ChosenLive(b.(groups := groups), refs);
    CountIsPicks(b.subs, refs, chosen, k, id);
    PicksWalk(groups, refs, k);
    GotCount(b.subs, chosen, c, id);
  }

  lemma {:induction false} AllTheSame(s: seq<Content>, t: seq<Content>, c: Content)
    requires |s| == |t| && (forall x :: x in s ==> x == c) && (forall x :: x in t ==> x == c)
    ensures s == t
  {
    forall i | 0 <= i < |s| ensures s[i] == t[i] {
      assert s[i] in s && t[i] in t;
    }
  }

  /** From the same counter, an item served alike sends each member the same either way. */
  lemma {:induction false} ItemAlike(b: Broker, one: Groups, other: Groups, c: Content, k: GroupKey, id: SubId)
    requires Inv(b) && ValidSubject(c.subject) && id in GroupIds(b.subs, k) && ServedAlike(b, c, k)
    requires SameMembers(one, b.groups) && SameMembers(other, b.groups) && k in b.groups
    requires one[k].index == other[k].index
    ensures Got(Attempts(b.subs, SelectAll(one, Refs(b, c)).1, c), id)
         == Got(PublishAttempts(b.(groups := other), c), id)
    ensures k in SelectAll(one, Refs(b, c)).0 && k in SelectAll(other, Served(b, c)).0
    ensures SelectAll(one, Refs(b, c)).0[k].index == SelectAll(other, Served(b, c)).0[k].index
  {
    hide Inv;
    hide SelectAll;
    hide Count;
    hide Walk;
    hide MatchIds;
    var refs, runs := Refs(b, c), Served(b, c);
    MemberOf(b, k, id);
    BothPopulated(b, one, other, c);
    CollapseCounts(refs, k);
    RoundSends(b, one, refs, c, k, id);
    RoundSends(b, other, runs, c, k, id);
    SelectAdvances(one, refs, k);
    SelectAdvances(other, runs, k);
    AllTheSame(Got(Attempts(b.subs, SelectAll(one, refs).1, c), id),
               Got(Attempts(b.subs, SelectAll(other, runs).1, c), id), c);
    FanoutSkipsMember(b, other, c, k, id);
  }

  lemma {:induction false} BothPopulated(b: Broker, one: Groups, other: Groups, c: Content)
    requires Inv(b) && SameMembers(one, b.groups) && SameMembers(other, b.groups)
    ensures GroupInv(b.subs, one) && GroupInv(b.subs, other)
    ensures AllPopulated(one, Refs(b, c)) && AllPopulated(other, Served(b, c)) && Interned(Refs(b, c))
  {
    RefsOk(b, Ids(b, c));
    PopulatedStays(one, b.groups, Refs(b, c));
    PopulatedStays(other, b.groups, Served(b, c));
    assert Holds(b, QueueGroups);
    GroupInvStays(b, one);
    GroupInvStays(b, other);
  }

  lemma {:induction false} FanoutSkipsMember(b: Broker, groups: Groups, c: Content, k: GroupKey, id: SubId)
    requires Inv(b) && ValidSubject(c.subject) && SameMembers(groups, b.groups) && id in GroupIds(b.subs, k)
    ensures Got(PublishAttempts(b.(groups := groups), c), id)
         == Got(Attempts(b.subs, SelectAll(groups, Served(b, c)).1, c), id)
  {
    var fan := FanoutIds(b.subs, Ids(b, c));
    SelectKeepsInv(b, groups);
    PublishPlan(b.(groups := groups), c);
    GotOnce(b.subs, fan, c, id);
    GotConcat(Attempts(b.subs, SelectAll(groups, Served(b, c)).1, c), Attempts(b.subs, fan, c), id);
  }

  lemma {:induction false} RunAlike(b: Broker, items: seq<Content>, k: GroupKey, id: SubId)
    requires Inv(b) && ValidItems(items) && id in GroupIds(b.subs, k)
    requires forall i :: 0 <= i < |items| ==> ServedAlike(b, items[i], k)
    ensures Got(QueuePlan(b, items).1, id) == Got(RunAttempts(b, items), id)
    ensures k in QueuePlan(b, items).0 && k in After(b, items).groups
    ensures QueuePlan(b, items).0[k].index == After(b, items).groups[k].index
  {
    hide Inv;
    hide ServedAlike;
    hide SelectAll;
    hide PublishAttempts;
    hide MatchIds;
    MemberOf(b, k, id);
    if items == [] {
      NothingRun(b);
    } else {
      var before, c := items[..|items| - 1], items[|items| - 1];
      assert ValidItems(before) && forall i :: 0 <= i < |before| ==> before[i] == items[i];
      RunAlike(b, before, k, id);
      PlanKeepsMembers(b, before);
      AfterKeepsInv(b, before);
      var (groups, tried) := QueuePlan(b, before);
      ItemAlike(b, groups, After(b, before).groups, c, k, id);
      SelectConcat(b.groups, RunRefs(b, before), Served(b, c));
      GotConcat(tried, Attempts(b.subs, SelectAll(groups, Refs(b, c)).1, c), id);
      GotConcat(RunAttempts(b, before), PublishAttempts(After(b, before), c), id);
    }
  }

  lemma {:induction false} NothingRun(b: Broker)
    ensures After(b, []).groups == b.groups && QueuePlan(b, []) == (b.groups, []) && RunAttempts(b, []) == []
  {
  }

  // ---- what is received ----

  lemma {:induction false} RunReceived(b: Broker, o: Oracle, out: Out, items: seq<Content>, id: SubId)
    requires AlwaysAccepts(o)
    ensures Received(PublishAll(b, o, out, items).1.log, id) == Received(out.log, id) + Got(RunAttempts(b, items), id)
  {
    hide Publish;
    hide PublishAttempts;
    hide After;
    if items != [] {
      var before, c := items[..|items| - 1], items[|items| - 1];
      RunReceived(b, o, out, before, id);
      RunIsPublishAll(b, o, out, before);
      var (b1, out1) := PublishAll(b, o, out, before);
      PublishReceived(b1, o, out1, c, id);
      GotConcat(RunAttempts(b, before), PublishAttempts(b1, c), id);
      ConcatAssoc(Received(out.log, id), Got(RunAttempts(b, before), id), Got(PublishAttempts(b1, c), id));
    }
  }

  /** The batch and the publishes one by one leave subscription `id` with the same messages. */
  ghost predicate SameReceived(
    b: Broker, o: Oracle, out: Out, items: seq<Content>, order: seq<SubId>, id: SubId)
  {
    Received(Batch(b, o, out, items, order).1.log, id) == Received(PublishAll(b, o, out, items).1.log, id)
  }

  /** For a group member that is a matter of the group selections alone. */
  lemma {:induction false} SameReceivedIff(
    b: Broker, o: Oracle, out: Out, items: seq<Content>, order: seq<SubId>, id: SubId)
    requires AlwaysAccepts(o) && FlushOrder(b, items, order) && id in b.subs && b.subs[id].key.Some?
    ensures SameReceived(b, o, out, items, order, id) <==>
            Got(QueuePlan(b, items).1, id) == Got(RunAttempts(b, items), id)
  {
    hide Batch;
    hide PublishAll;
    hide FlushOrder;
    BatchReceived(b, o, out, items, order, id);
    FlushedForMe(b, items, order, id);
    RunReceived(b, o, out, items, id);
    SamePrefix(Received(out.log, id), Got(QueuePlan(b, items).1, id), Got(RunAttempts(b, items), id));
  }

  lemma {:induction false} SamePrefix(a: seq<Content>, s: seq<Content>, t: seq<Content>)
    ensures a + s + [] == a + t <==> s == t
  {
    assert a + s + [] == a + s;
    assert (a + s)[|a|..] == s && (a + t)[|a|..] == t;
  }

  lemma {:induction false} SameReceivedMeansAlike(b: Broker, items: seq<Content>, k: GroupKey)
    requires Inv(b) && ValidItems(items)
    requires forall id :: id in GroupIds(b.subs, k) ==> Got(QueuePlan(b, items).1, id) == Got(RunAttempts(b, items), id)
    ensures forall i :: 0 <= i < |items| ==> ServedAlike(b, items[i], k)
  {
    hide QueuePlan;
    hide RunAttempts;
    hide Got;
    hide ServedAlike;
    assert Holds(b, QueueGroups);
    assert Indexes(Members(b.groups, k), GroupIds(b.subs, k));
    var ids := Members(b.groups, k);
    SameTotals(QueuePlan(b, items).1, RunAttempts(b, items), ids);
    MembersTakeAll(QueuePlan(b, items).1, b.subs, k, ids);
    MembersTakeAll(RunAttempts(b, items), b.subs, k, ids);
    PlanServes(b, items, k);
    RunServes(b, items, k);
    RunTakes(b, items, k);
    EqualSums(b, items, k);
  }

  lemma {:induction false} RunTakes(b: Broker, items: seq<Content>, k: GroupKey)
    requires Inv(b) && ValidItems(items)
    ensures GroupAttempts(RunAttempts(b, items), b.subs, k) == Occurrences(RunRefs(b, items), k)
  {
    hide Inv;
    hide PublishAttempts;
    hide Served;
    hide SelectAll;
    hide GroupAttempts;
    hide Occurrences;
    if items == [] {
      NothingTaken(b, k);
    } else {
      var before, c := items[..|items| - 1], items[|items| - 1];
      assert ValidItems(before) && ValidSubject(c.subject);
      RunTakes(b, before, k);
      AfterKeepsInv(b, before);
      PublishTakes(After(b, before), c, k);
      ServedAfter(b, before, c);
      GroupAttemptsConcat(RunAttempts(b, before), PublishAttempts(After(b, before), c), b.subs, k);
      OccurrencesConcat(RunRefs(b, before), Served(b, c), k);
    }
  }

  lemma {:induction false} NothingTaken(b: Broker, k: GroupKey)
    ensures GroupAttempts([], b.subs, k) == 0 && Occurrences([], k) == 0
  {
  }

  lemma {:induction false} PublishTakes(b: Broker, c: Content, k: GroupKey)
    requires Inv(b) && ValidSubject(c.subject)
    ensures GroupAttempts(PublishAttempts(b, c), b.subs, k) == Occurrences(Served(b, c), k)
  {
    PublishServesRuns(b, c, k);
    RefsOk(b, Ids(b, c));
    CollapseCounts(QueueRefs(b.subs, Ids(b, c)), k);
  }

  // ---- in terms of the subscriptions ----

  /** Live members `i` and `j` of group `k` with none between them. */
  ghost predicate Neighbours(b: Broker, k: GroupKey, i: SubId, j: SubId) {
    && i in GroupIds(b.subs, k) && j in GroupIds(b.subs, k) && i < j
    && forall x :: x in GroupIds(b.subs, k) ==> x <= i || j <= x
  }

  /** A rival subscribed between them. */
  ghost predicate Parted(b: Broker, k: GroupKey, i: SubId, j: SubId) {
    exists x: SubId :: Rival(b, k, x) && i < x < j
  }

  /** A rival subscribed between every two neighbouring live members; so it is for a group of one. */
  ghost predicate Scattered(b: Broker, k: GroupKey) {
    forall i: SubId, j: SubId :: Neighbours(b, k, i, j) ==> Parted(b, k, i, j)
  }

  /** No two adjacent pointers are to `k`. */
  ghost predicate Apart(refs: seq<KeyRef>, k: GroupKey) {
    forall i :: 1 <= i < |refs| ==> !(refs[i - 1].key == k && refs[i].key == k)
  }

  lemma {:induction false} ApartMeansRuns(refs: seq<KeyRef>, k: GroupKey)
    ensures RunStarts(refs, k) == Occurrences(refs, k) <==> Apart(refs, k)
  {
    if refs != [] {
      var n := |refs|;
      var before := refs[..n - 1];
      ApartMeansRuns(before, k);
      RunsAtMostMentions(before, k);
      assert forall i :: 0 <= i < n - 1 ==> before[i] == refs[i];
    }
  }

  /** Nobody with their pattern subscribed between two adjacent matched queue subscriptions. */
  lemma {:induction false} NobodyBetween(b: Broker, s: Subject, i: nat, x: SubId)
    requires Inv(b) && ValidSubject(s) && x in b.subs && b.subs[x].key.Some?
    requires i + 1 < |QueueIds(b.subs, MatchIds(b.router, s))|
    requires MatchTokens(b.subs[x].pattern.tokens, s.tokens)
    requires var qs := QueueIds(b.subs, MatchIds(b.router, s));
             b.subs[qs[i]].pattern == b.subs[x].pattern == b.subs[qs[i + 1]].pattern
    ensures var qs := QueueIds(b.subs, MatchIds(b.router, s));
            qs[i] < qs[i + 1] && (x <= qs[i] || qs[i + 1] <= x)
  {
    hide Inv;
    hide MatchIds;
    hide QueueIds;
    var qs := QueueIds(b.subs, MatchIds(b.router, s));
    QueueInOrder(b, s);
    var at := PlaceOf(b, s, x);
    var live := Patterns(b.subs);
    assert live[qs[i]] == live[x] == live[qs[i + 1]];
    assert at <= i || i + 1 <= at;
  }

  /** All subscriptions to the pattern of group `k`, in whatever group, match what one of its members matches. */
  lemma {:induction false} MatchAlike(b: Broker, k: GroupKey, m: SubId, x: SubId)
    requires Inv(b) && m in GroupIds(b.subs, k) && (x in GroupIds(b.subs, k) || Rival(b, k, x))
    ensures x in b.subs && b.subs[x].key.Some? && b.subs[x].pattern == b.subs[m].pattern
  {
    hide Inv;
    KeySays(b, m);
    if Rival(b, k, x) {
      RivalQueued(b, k, x);
    }
    KeySays(b, x);
    SamePattern(b, m, x);
  }

  /** A matched queue subscription matches. */
  lemma {:induction false} QueuedMatches(b: Broker, s: Subject, i: nat)
    requires Inv(b) && ValidSubject(s) && i < |QueueIds(b.subs, MatchIds(b.router, s))|
    ensures MatchTokens(b.subs[QueueIds(b.subs, MatchIds(b.router, s))[i]].pattern.tokens, s.tokens)
  {
    MatchScan(b, s);
    QueueLaw(b.subs, MatchIds(b.router, s));
    var qs := QueueIds(b.subs, MatchIds(b.router, s));
    assert qs[i] in qs;
  }

  lemma {:induction false} AdjacentAreNeighbours(b: Broker, c: Content, k: GroupKey, i: nat)
    requires Inv(b) && ValidSubject(c.subject) && i + 1 < |Refs(b, c)|
    requires Refs(b, c)[i].key == k && Refs(b, c)[i + 1].key == k
    ensures MatchingGroup(b, c, k) && !Scattered(b, k)
  {
    hide Inv;
    hide MatchIds;
    hide QueueIds;
    hide Rival;
    hide MatchTokens;
    var s := c.subject;
    var qs := QueueIds(b.subs, MatchIds(b.router, s));
    QueuedMatches(b, s, i);
    assert qs[i] in GroupIds(b.subs, k) && qs[i + 1] in GroupIds(b.subs, k);
    MatchAlike(b, k, qs[i], qs[i + 1]);
    forall x: SubId | x in GroupIds(b.subs, k) || Rival(b, k, x)
      ensures qs[i] < qs[i + 1] && (x <= qs[i] || qs[i + 1] <= x)
    {
      MatchAlike(b, k, qs[i], x);
      NobodyBetween(b, s, i, x);
    }
    assert qs[i] in GroupIds(b.subs, k);
    assert Neighbours(b, k, qs[i], qs[i + 1]) && !Parted(b, k, qs[i], qs[i + 1]);
  }

  /** Neighbouring members with no rival between them are adjacent among the matched queue subscriptions. */
  lemma {:induction false} NeighboursAreAdjacent(b: Broker, c: Content, k: GroupKey, i: SubId, j: SubId)
    requires Inv(b) && ValidSubject(c.subject) && MatchTokensOf(b, i, c)
    requires Neighbours(b, k, i, j) && !Parted(b, k, i, j)
    ensures !Apart(Refs(b, c), k)
  {
    hide Inv;
    hide MatchIds;
    hide QueueIds;
    hide Rival;
    hide MatchTokens;
    var s := c.subject;
    var qs, refs := QueueIds(b.subs, MatchIds(b.router, s)), Refs(b, c);
    MatchAlike(b, k, i, i);
    MatchAlike(b, k, i, j);
    QueueInOrder(b, s);
    var pi := PlaceOf(b, s, i);
    var pj := PlaceOf(b, s, j);
    assert Patterns(b.subs)[i] == Patterns(b.subs)[j];
    assert pi < pj;
    if pi + 1 < pj {
      if refs[pi + 1].key == k {
        NextIsMember(b, qs, k, pi, pj);
      } else {
        BetweenIsRival(b, qs, k, pi, pi + 1, pj);
      }
      assert false;
    }
    assert refs[pi].key == k && refs[pi + 1].key == k;
  }

  ghost predicate MatchTokensOf(b: Broker, i: SubId, c: Content) {
    i in b.subs && MatchTokens(b.subs[i].pattern.tokens, c.subject.tokens)
  }

  lemma {:induction false} NextIsMember(b: Broker, qs: seq<SubId>, k: GroupKey, i: nat, j: nat)
    requires Inv(b) && forall n :: 0 <= n < |qs| ==> qs[n] in b.subs && b.subs[qs[n]].key.Some?
    requires InOrder(qs, Patterns(b.subs)) && i + 1 < j < |qs|
    requires b.subs[qs[i]].key.value.key == k && b.subs[qs[j]].key.value.key == k
    requires b.subs[qs[i + 1]].key.value.key == k
    ensures qs[i + 1] in GroupIds(b.subs, k) && qs[i] < qs[i + 1] < qs[j]
  {
    hide Inv;
    assert qs[i] in GroupIds(b.subs, k) && qs[i + 1] in GroupIds(b.subs, k) && qs[j] in GroupIds(b.subs, k);
    MatchAlike(b, k, qs[i], qs[i + 1]);
    MatchAlike(b, k, qs[i], qs[j]);
    var live := Patterns(b.subs);
    assert live[qs[i]] == live[qs[i + 1]] == live[qs[j]];
  }

  /** An item is served alike exactly when it does not match the group or the group's members are scattered. */
  lemma {:induction false} AlikeIff(b: Broker, c: Content, k: GroupKey)
    requires Inv(b) && ValidSubject(c.subject)
    ensures ServedAlike(b, c, k) <==> !MatchingGroup(b, c, k) || Scattered(b, k)
  {
    hide Inv;
    hide Refs;
    hide MatchIds;
    hide Rival;
    hide Parted;
    hide RunStarts;
    hide Occurrences;
    ApartMeansRuns(Refs(b, c), k);
    if !Apart(Refs(b, c), k) {
      var i :| 1 <= i < |Refs(b, c)| && Refs(b, c)[i - 1].key == k && Refs(b, c)[i].key == k;
      AdjacentAreNeighbours(b, c, k, i - 1);
    } else if MatchingGroup(b, c, k) && !Scattered(b, k) {
      var m :| m in GroupIds(b.subs, k) && MatchTokens(b.subs[m].pattern.tokens, c.subject.tokens);
      var i: SubId, j: SubId :| Neighbours(b, k, i, j) && !Parted(b, k, i, j);
      MatchAlike(b, k, m, i);
      NeighboursAreAdjacent(b, c, k, i, j);
    }
  }

  // ---- the theorems ----

  /** No item matches group `k`, or a rival stands between every two neighbouring live members. */
  ghost predicate Agreeable(b: Broker, items: seq<Content>, k: GroupKey) {
    (forall i :: 0 <= i < |items| ==> !MatchingGroup(b, items[i], k)) || Scattered(b, k)
  }

  lemma {:induction false} AllAlikeIff(b: Broker, items: seq<Content>, k: GroupKey)
    requires Inv(b) && ValidItems(items)
    ensures (forall i :: 0 <= i < |items| ==> ServedAlike(b, items[i], k)) <==> Agreeable(b, items, k)
  {
    hide Inv;
    hide ServedAlike;
    hide MatchingGroup;
    hide Scattered;
    forall i | 0 <= i < |items|
      ensures ServedAlike(b, items[i], k) <==> !MatchingGroup(b, items[i], k) || Scattered(b, k)
    {
      AlikeIff(b, items[i], k);
    }
  }

  /**
   With accepting handles, the members of a group get from a batch what they get from its items published
   one by one, if and only if no item matches the group or a rival subscribed between every two of its
   neighbouring live members, as is so for a group of one.
   */
  lemma {:induction false} GroupAgreesIff(
    b: Broker, o: Oracle, out: Out, items: seq<Content>, order: seq<SubId>, k: GroupKey)
    requires Inv(b) && ValidItems(items) && AlwaysAccepts(o) && FlushOrder(b, items, order)
    ensures (forall id :: id in GroupIds(b.subs, k) ==> SameReceived(b, o, out, items, order, id)) <==>
            Agreeable(b, items, k)
  {
    hide Inv;
    hide FlushOrder;
    hide SameReceived;
    hide ServedAlike;
    hide Agreeable;
    hide QueuePlan;
    hide RunAttempts;
    hide Got;
    AllAlikeIff(b, items, k);
    forall id | id in GroupIds(b.subs, k)
      ensures SameReceived(b, o, out, items, order, id) <==>
              Got(QueuePlan(b, items).1, id) == Got(RunAttempts(b, items), id)
    {
      SameReceivedIff(b, o, out, items, order, id);
    }
    if Agreeable(b, items, k) {
      forall id | id in GroupIds(b.subs, k)
        ensures Got(QueuePlan(b, items).1, id) == Got(RunAttempts(b, items), id)
      {
        RunAlike(b, items, k, id);
      }
    } else if forall id :: id in GroupIds(b.subs, k) ==> SameReceived(b, o, out, items, order, id) {
      SameReceivedMeansAlike(b, items, k);
    }
  }

  /** Subscription `id` is outside groups, or its group agrees. */
  ghost predicate AgreesFor(b: Broker, items: seq<Content>, id: SubId) {
    id in b.subs && (b.subs[id].key.Some? ==> Agreeable(b, items, b.subs[id].key.value.key))
  }

  /** A subscription outside groups, or in a group that agrees, gets the same sequence either way. */
  lemma {:induction false} BatchIsOneByOne(
    b: Broker, o: Oracle, out: Out, items: seq<Content>, order: seq<SubId>, id: SubId)
    requires Inv(b) && ValidItems(items) && AlwaysAccepts(o) && FlushOrder(b, items, order)
    requires AgreesFor(b, items, id)
    ensures SameReceived(b, o, out, items, order, id)
  {
    hide Inv;
    hide FlushOrder;
    hide Agreeable;
    if b.subs[id].key.Some? {
      hide SameReceived;
      var k := b.subs[id].key.value.key;
      GroupAgreesIff(b, o, out, items, order, k);
      assert id in GroupIds(b.subs, k);
    } else {
      BatchDeliversMine(b, o, out, items, order, id);
      PublishAllDeliversMine(b, o, out, items, id);
    }
  }

  /** A batch is its items one by one, for everybody, if and only if every group agrees. */
  lemma {:induction false} BatchIsOneByOneIff(b: Broker, o: Oracle, out: Out, items: seq<Content>, order: seq<SubId>)
    requires Inv(b) && ValidItems(items) && AlwaysAccepts(o) && FlushOrder(b, items, order)
    ensures (forall id :: id in b.subs ==> SameReceived(b, o, out, items, order, id)) <==>
            forall id :: id in b.subs ==> AgreesFor(b, items, id)
  {
    hide Inv;
    hide FlushOrder;
    hide Agreeable;
    hide SameReceived;
    if forall id :: id in b.subs ==> AgreesFor(b, items, id) {
      forall id | id in b.subs ensures SameReceived(b, o, out, items, order, id) {
        BatchIsOneByOne(b, o, out, items, order, id);
      }
    }
    if forall id :: id in b.subs ==> SameReceived(b, o, out, items, order, id) {
      forall id | id in b.subs ensures AgreesFor(b, items, id) {
        if b.subs[id].key.Some? {
          GroupAgreesIff(b, o, out, items, order, b.subs[id].key.value.key);
        }
      }
    }
  }

  lemma {:induction false} AloneAgrees(b: Broker, items: seq<Content>, k: GroupKey, id: SubId)
    requires GroupIds(b.subs, k) == {id}
    ensures Agreeable(b, items, k)
  {
    forall i: SubId, j: SubId ensures !Neighbours(b, k, i, j) {
    }
  }

  // ---- a group of two ----

  /** Two subscriptions to one pattern in the group g. */
  function Pair(p: SubjectPattern): Broker {
    Subscribe(OneSubscriber(p), 2, p, Some("g"), 2, 2)
  }

  lemma {:induction false} PairIs(p: SubjectPattern, s: Subject)
    requires ValidPattern(p) && !HasWildcard(p.tokens) && s.raw == p.raw
    ensures var b, k := Pair(p), GroupKey(p.raw, "g");
            && Inv(b) && b.subs.Keys == {1, 2} && GroupIds(b.subs, k) == {1, 2}
            && b.subs[1].key == b.subs[2].key == Some(KeyRef(1, k))
            && k in b.groups && b.groups[k].members == [1, 2] && b.groups[k].index == 0
            && MatchIds(b.router, s) == [1, 2]
  {
    hide Inv;
    EmptyBrokerInv();
    SubscribeKeepsInv(EMPTY_BROKER, 1, p, Some("g"), 1, 1);
    TwoSubscribersAddrs(p);
    SubscribeKeepsInv(OneSubscriber(p), 2, p, Some("g"), 2, 2);
  }

  /** The pair's matched queue pointers are two to one key, which a publish takes as one run. */
  lemma {:induction false} PairRefs(b: Broker, c: Content, ref: KeyRef)
    requires b.subs.Keys == {1, 2} && b.subs[1].key == b.subs[2].key == Some(ref)
    requires Ids(b, c) == [1, 2] && ref.key in b.groups
    requires b.groups[ref.key].members == [1, 2] && b.groups[ref.key].index == 0
    ensures FanoutIds(b.subs, Ids(b, c)) == [] && SelectAll(b.groups, Served(b, c)).1 == [1]
  {
    hide Collapse;
    hide QueueIds;
    hide FanoutIds;
    hide SelectAll;
    PairQueued(b.subs);
    assert QueueRefs(b.subs, [1, 2]) == [ref, ref];
    CollapseTwo(ref);
    FirstSelected(b.groups, ref);
  }

  lemma {:induction false} PairQueued(subs: Subs)
    requires subs.Keys == {1, 2} && subs[1].key.Some? && subs[2].key.Some?
    ensures QueueIds(subs, [1, 2]) == [1, 2] && FanoutIds(subs, [1, 2]) == []
  {
    assert [1, 2][..1] == [1] && [1][..0] == [];
    assert QueueIds(subs, [1]) == [1];
    assert FanoutIds(subs, [1]) == [];
  }

  lemma {:induction false} CollapseTwo(ref: KeyRef)
    ensures Collapse([ref, ref]) == [ref]
  {
    assert [ref, ref][..1] == [ref] && [ref][..0] == [];
    assert Collapse([ref]) == [ref];
  }

  lemma {:induction false} FirstSelected(groups: Groups, ref: KeyRef)
    requires ref.key in groups && groups[ref.key].members == [1, 2] && groups[ref.key].index == 0
    ensures SelectAll(groups, [ref]).1 == [1]
  {
    assert [ref][..0] == [];
    assert SelectAll(groups, []) == (groups, []);
  }

  lemma {:induction false} PairPublish(b: Broker, o: Oracle, out: Out, c: Content, ref: KeyRef)
    requires AlwaysAccepts(o)
    requires b.subs.Keys == {1, 2} && b.subs[1].key == b.subs[2].key == Some(ref)
    requires Ids(b, c) == [1, 2] && ref.key in b.groups
    requires b.groups[ref.key].members == [1, 2] && b.groups[ref.key].index == 0
    ensures Received(PublishAll(b, o, out, [c]).1.log, 1) == Received(out.log, 1) + [c]
    ensures Received(PublishAll(b, o, out, [c]).1.log, 2) == Received(out.log, 2)
  {
    hide SelectAll;
    hide Publish;
    assert [c][..0] == [];
    assert PublishAll(b, o, out, [c]) == Publish(b, o, out, c);
    PublishReceived(b, o, out, c, 1);
    PublishReceived(b, o, out, c, 2);
    PairRefs(b, c, ref);
    OneAttempt(b.subs, c);
  }

  lemma {:induction false} OneAttempt(subs: Subs, c: Content)
    requires 1 in subs
    ensures Attempts(subs, [], c) == [] && Got(Attempts(subs, [1], c) + [], 1) == [c]
    ensures Got(Attempts(subs, [1], c) + [], 2) == []
  {
    hide Attempts;
    hide Got;
    NoAttempts(subs, c);
    GotOnce(subs, [1], c, 1);
    GotOnce(subs, [1], c, 2);
    assert Attempts(subs, [1], c) + [] == Attempts(subs, [1], c);
  }

  lemma {:induction false} NoAttempts(subs: Subs, c: Content)
    ensures Attempts(subs, [], c) == []
  {
  }

  lemma {:induction false} PairFlush(b: Broker, c: Content)
    requires b.subs.Keys == {1, 2} && b.subs[1].key.Some? && b.subs[2].key.Some?
    ensures FlushOrder(b, [c], [])
  {
    forall id ensures FlushedIff(b, [c], [], id) {
    }
  }

  lemma {:induction false} MineIsOne(b: Broker, c: Content, id: SubId)
    requires id in Ids(b, c)
    ensures Mine(b, [c], id) == [c]
  {
    assert [c][..0] == [];
    assert Mine(b, [c][..0], id) == [];
  }

  /** With a group of two and one item, the batch gives it to both members and the publish to one. */
  lemma {:induction false} PairGetsTwice(p: SubjectPattern, c: Content, o: Oracle, out: Out)
    requires ValidPattern(p) && !HasWildcard(p.tokens) && ValidSubject(c.subject) && c.subject.raw == p.raw
    requires AlwaysAccepts(o)
    ensures var b := Pair(p);
            && Inv(b) && FlushOrder(b, [c], []) && !Agreeable(b, [c], GroupKey(p.raw, "g"))
            && Received(Batch(b, o, out, [c], []).1.log, 1) == Received(out.log, 1) + [c]
            && Received(Batch(b, o, out, [c], []).1.log, 2) == Received(out.log, 2) + [c]
            && Received(PublishAll(b, o, out, [c]).1.log, 1) == Received(out.log, 1) + [c]
            && Received(PublishAll(b, o, out, [c]).1.log, 2) == Received(out.log, 2)
  {
    hide *;
    var b, k := Pair(p), GroupKey(p.raw, "g");
    PairIs(p, c.subject);
    PairMatched(b, c);
    PairPublish(b, o, out, c, KeyRef(1, k));
    PairFlush(b, c);
    PairServable(b, c, KeyRef(1, k));
    OneItem(c);
    forall id | id in {1, 2} ensures Received(Batch(b, o, out, [c], []).1.log, id) == Received(out.log, id) + [c] {
      BatchDeliversMine(b, o, out, [c], [], id);
      MineIsOne(b, c, id);
    }
    GroupAgreesIff(b, o, out, [c], [], k);
    PairDiffers(b, o, out, c);
  }

  lemma {:induction false} OneItem(c: Content)
    requires ValidSubject(c.subject)
    ensures ValidItems([c])
  {
  }

  lemma {:induction false} PairMatched(b: Broker, c: Content)
    ensures Ids(b, c) == MatchIds(b.router, c.subject)
  {
  }

  lemma {:induction false} PairServable(b: Broker, c: Content, ref: KeyRef)
    requires b.subs.Keys == {1, 2} && b.subs[1].key == b.subs[2].key == Some(ref)
    requires ref.key in b.groups && b.groups[ref.key].members == [1, 2]
    ensures Servable(b, [c], 1) && Servable(b, [c], 2)
  {
    RoundRobin.DivModUnique(RoundRobin.USIZE, 2, 0x8000_0000_0000_0000, 0);
  }

  lemma {:induction false} PairDiffers(b: Broker, o: Oracle, out: Out, c: Content)
    requires Received(Batch(b, o, out, [c], []).1.log, 2) == Received(out.log, 2) + [c]
    requires Received(PublishAll(b, o, out, [c]).1.log, 2) == Received(out.log, 2)
    ensures !SameReceived(b, o, out, [c], [], 2)
  {
    assert |Received(out.log, 2) + [c]| == |Received(out.log, 2)| + 1;
  }
}
