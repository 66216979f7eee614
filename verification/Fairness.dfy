/** Round-robin fairness of a whole run of publishes, read off what the run attempted. */
module Fairness {
  import opened Subjects
  import opened Seqs
  import opened Tries
  import opened Delivery
  import opened BrokerState
  import opened Publishing
  import opened Batching
  import RoundRobin

  /** The groups one publish serves, in order. */
  function Served(b: Broker, c: Content): seq<KeyRef> {
    Collapse(QueueRefs(b.subs, Ids(b, c)))
  }

  /** The groups a run of publishes serves, in order. */
  function RunRefs(b: Broker, items: seq<Content>): seq<KeyRef> {
    if items == [] then []
    else RunRefs(b, items[..|items| - 1]) + Served(b, items[|items| - 1])
  }

  /** The broker after a run of publishes. */
  function After(b: Broker, items: seq<Content>): Broker {
    b.(groups := SelectAll(b.groups, RunRefs(b, items)).0)
  }

  /** What a run of publishes attempts, in order. */
  function RunAttempts(b: Broker, items: seq<Content>): seq<Attempt> {
    if items == [] then []
    else
      var before := items[..|items| - 1];
      RunAttempts(b, before) + PublishAttempts(After(b, before), items[|items| - 1])
  }

  // ---- selections compose ----

  lemma {:induction false} SelectConcat(groups: Groups, a: seq<KeyRef>, b: seq<KeyRef>)
    ensures SelectAll(groups, a + b).0 == SelectAll(SelectAll(groups, a).0, b).0
    ensures SelectAll(groups, a + b).1 == SelectAll(groups, a).1 + SelectAll(SelectAll(groups, a).0, b).1
  {
    hide Select;
    if b == [] {
      assert a + b == a;
    } else {
      var n := |b| - 1;
      SelectConcat(groups, a, b[..n]);
      assert (a + b)[..|a + b| - 1] == a + b[..n] && (a + b)[|a + b| - 1] == b[n];
    }
  }

  lemma {:induction false} PopulatedConcat(groups: Groups, a: seq<KeyRef>, b: seq<KeyRef>)
    requires AllPopulated(groups, a) && AllPopulated(groups, b)
    ensures AllPopulated(groups, a + b)
  {
  }

  lemma {:induction false} OccurrencesConcat(a: seq<KeyRef>, b: seq<KeyRef>, k: GroupKey)
    ensures Occurrences(a + b, k) == Occurrences(a, k) + Occurrences(b, k)
  {
    if b == [] {
      assert a + b == a;
    } else {
      OccurrencesConcat(a, b[..|b| - 1], k);
      assert (a + b)[..|a + b| - 1] == a + b[..|b| - 1];
    }
  }

  lemma {:induction false} CountConcat(a: seq<SubId>, b: seq<SubId>, id: SubId)
    ensures Count(a + b, id) == Count(a, id) + Count(b, id)
  {
    if b == [] {
      assert a + b == a;
    } else {
      CountConcat(a, b[..|b| - 1], id);
      assert (a + b)[..|a + b| - 1] == a + b[..|b| - 1];
    }
  }

  // ---- the run ----

  lemma {:induction false} RunPopulated(b: Broker, items: seq<Content>)
    requires Inv(b)
    ensures AllPopulated(b.groups, RunRefs(b, items))
  {
    if items != [] {
      var before, c := items[..|items| - 1], items[|items| - 1];
      RunPopulated(b, before);
      RefsOk(b, Ids(b, c));
      PopulatedConcat(b.groups, RunRefs(b, before), Served(b, c));
    }
  }

  lemma {:induction false} AfterKeepsInv(b: Broker, items: seq<Content>)
    requires Inv(b)
    ensures Inv(After(b, items)) && SameMembers(After(b, items).groups, b.groups)
  {
    SelectKeepsMembers(b.groups, RunRefs(b, items));
    SelectKeepsInv(b, After(b, items).groups);
  }

  /** Publishing one by one makes exactly the run's selections and attempts. */
  lemma {:induction false} RunIsPublishAll(b: Broker, o: Oracle, out: Out, items: seq<Content>)
    ensures PublishAll(b, o, out, items).0 == After(b, items)
    ensures AttemptsOf(PublishAll(b, o, out, items).1.log) == AttemptsOf(out.log) + RunAttempts(b, items)
  {
    if items != [] {
      var before, c := items[..|items| - 1], items[|items| - 1];
      RunIsPublishAll(b, o, out, before);
      var (b1, out1) := PublishAll(b, o, out, before);
      SelectConcat(b.groups, RunRefs(b, before), Served(b, c));
      PublishLog(b1, o, out1, c);
      ConcatAssoc(AttemptsOf(out.log), RunAttempts(b, before), PublishAttempts(b1, c));
    }
  }

  /** One publish attempts a group once per selection of it, and a member once per selection of the member. */
  lemma {:induction false} PublishCounts(b: Broker, c: Content, k: GroupKey, id: SubId)
    requires Inv(b) && ValidSubject(c.subject) && id in GroupIds(b.subs, k)
    ensures GroupAttempts(PublishAttempts(b, c), b.subs, k) == Occurrences(Served(b, c), k)
    ensures |Got(PublishAttempts(b, c), id)| == Count(SelectAll(b.groups, Served(b, c)).1, id)
  {
    var ids := Ids(b, c);
    var chosen, fan := SelectAll(b.groups, Served(b, c)).1, FanoutIds(b.subs, ids);
    PublishPlan(b, c);
    PublishServesRuns(b, c, k);
    RefsOk(b, ids);
    CollapseCounts(QueueRefs(b.subs, ids), k);
    GotConcat(Attempts(b.subs, chosen, c), Attempts(b.subs, fan, c), id);
    GotCount(b.subs, chosen, c, id);
    GotOnce(b.subs, fan, c, id);
  }

  /** A run's attempts on a group are its selections of it, and on a member its selections of the member. */
  ghost predicate CountsAgree(b: Broker, items: seq<Content>, k: GroupKey, id: SubId) {
    && GroupAttempts(RunAttempts(b, items), b.subs, k) == Occurrences(RunRefs(b, items), k)
    && |Got(RunAttempts(b, items), id)| == Count(SelectAll(b.groups, RunRefs(b, items)).1, id)
  }

  lemma {:induction false} RunCounts(b: Broker, items: seq<Content>, k: GroupKey, id: SubId)
    requires Inv(b) && ValidItems(items) && id in GroupIds(b.subs, k)
    ensures CountsAgree(b, items, k, id)
  {
    hide Inv;
    hide Served;
    hide PublishAttempts;
    if items != [] {
      var before, c := items[..|items| - 1], items[|items| - 1];
      assert ValidItems(before) && ValidSubject(c.subject);
      RunCounts(b, before, k, id);
      AfterKeepsInv(b, before);
      PublishCounts(After(b, before), c, k, id);
      SelectConcat(b.groups, RunRefs(b, before), Served(b, c));
      assert Served(After(b, before), c) == Served(b, c) by {
        ServedAfter(b, before, c);
      }
      CountsStep(RunAttempts(b, before), PublishAttempts(After(b, before), c), b.subs, k, id,
                 RunRefs(b, before), Served(b, c),
                 SelectAll(b.groups, RunRefs(b, before)).1, SelectAll(After(b, before).groups, Served(b, c)).1);
    }
  }

  lemma {:induction false} ServedAfter(b: Broker, items: seq<Content>, c: Content)
    ensures Served(After(b, items), c) == Served(b, c)
  {
  }

  lemma {:induction false} CountsStep(
    tried: seq<Attempt>, next: seq<Attempt>, subs: Subs, k: GroupKey, id: SubId,
    refs: seq<KeyRef>, served: seq<KeyRef>, chosen: seq<SubId>, picks: seq<SubId>)
    requires GroupAttempts(tried, subs, k) == Occurrences(refs, k) && |Got(tried, id)| == Count(chosen, id)
    requires GroupAttempts(next, subs, k) == Occurrences(served, k) && |Got(next, id)| == Count(picks, id)
    ensures GroupAttempts(tried + next, subs, k) == Occurrences(refs + served, k)
    ensures |Got(tried + next, id)| == Count(chosen + picks, id)
  {
    hide *;
    GroupAttemptsConcat(tried, next, subs, k);
    GotConcat(tried, next, id);
    OccurrencesConcat(refs, served, k);
    CountConcat(chosen, picks, id);
  }

  /**
   Over any run of publishes, whatever else is matched and whatever the handles answer, the m messages a
   group of n takes are shared out floor(m/n) or ceil(m/n) to each member, unless the group's counter passes
   a wrap that n does not divide.
   */
  lemma {:induction false} PublishingIsFair(
    b: Broker, o: Oracle, out: Out, items: seq<Content>, k: GroupKey, id: SubId)
    requires Inv(b) && ValidItems(items) && id in GroupIds(b.subs, k)
    ensures k in b.groups && b.groups[k].members != []
    ensures AttemptsOf(PublishAll(b, o, out, items).1.log) == AttemptsOf(out.log) + RunAttempts(b, items)
    ensures var m, n := GroupAttempts(RunAttempts(b, items), b.subs, k), |b.groups[k].members|;
            RoundRobin.Smooth(b.groups[k].index, m, n) ==>
              m / n <= |Got(RunAttempts(b, items), id)| <= m / n + if m % n == 0 then 0 else 1
  {
    var refs := RunRefs(b, items);
    MemberOf(b, k, id);
    RunIsPublishAll(b, o, out, items);
    RunCounts(b, items, k, id);
    RunPopulated(b, items);
    var n := |b.groups[k].members|;
    if RoundRobin.Smooth(b.groups[k].index, Occurrences(refs, k), n) {
      assert Holds(b, QueueGroups);
      assert Indexes(Members(b.groups, k), GroupIds(b.subs, k));
      ChosenLive(b, refs);
      var r :| 0 <= r < n && b.groups[k].members[r] == id;
      RoundRobinIsFair(b.groups, refs, k, r);
      CountIsPicks(b.subs, refs, SelectAll(b.groups, refs).1, k, id);
    }
  }

  lemma {:induction false} MembersAre(b: Broker, k: GroupKey, r: nat)
    requires Inv(b) && k in b.groups && r < |b.groups[k].members|
    ensures GroupInv(b.subs, b.groups) && NoDup(b.groups[k].members)
    ensures b.groups[k].members[r] in GroupIds(b.subs, k)
  {
    assert Holds(b, QueueGroups);
    assert Indexes(Members(b.groups, k), GroupIds(b.subs, k));
    assert b.groups[k].members[r] in Members(b.groups, k);
  }

  /** What a member is attempted in a run is how often the walk round the members lands on it. */
  lemma {:induction false} MemberShare(b: Broker, items: seq<Content>, k: GroupKey, r: nat)
    requires Inv(b) && ValidItems(items) && k in b.groups && r < |b.groups[k].members|
    ensures b.groups[k].members[r] in GroupIds(b.subs, k)
    ensures |Got(RunAttempts(b, items), b.groups[k].members[r])|
         == RoundRobin.Lands(b.groups[k].index, Occurrences(RunRefs(b, items), k), |b.groups[k].members|, r)
    ensures GroupAttempts(RunAttempts(b, items), b.subs, k) == Occurrences(RunRefs(b, items), k)
  {
    hide Inv;
    hide GroupInv;
    hide AllPopulated;
    hide RunAttempts;
    hide RunRefs;
    hide SelectAll;
    hide Walk;
    hide Count;
    hide NoDup;
    hide Got;
    var refs, id := RunRefs(b, items), b.groups[k].members[r];
    MembersAre(b, k, r);
    RunCounts(b, items, k, id);
    RunPopulated(b, items);
    ChosenLive(b, refs);
    CountIsPicks(b.subs, refs, SelectAll(b.groups, refs).1, k, id);
    PicksWalk(b.groups, refs, k);
    WalkCount(b.groups[k].members, b.groups[k].index, Occurrences(refs, k), r);
  }

  /**
   Past the wrap once, a run of publishes is shared out so among all members if and only if there is not
   both a member served in the partial round before the wrap and in that after it, and one in neither.
   */
  lemma {:induction false} PublishingIsFairIff(b: Broker, items: seq<Content>, k: GroupKey)
    requires Inv(b) && ValidItems(items) && k in b.groups && b.groups[k].members != []
    requires b.groups[k].index + GroupAttempts(RunAttempts(b, items), b.subs, k) <= 2 * RoundRobin.USIZE
    ensures var m, n := GroupAttempts(RunAttempts(b, items), b.subs, k), |b.groups[k].members|;
            (forall id :: id in GroupIds(b.subs, k) ==>
               RoundRobin.FairShare(|Got(RunAttempts(b, items), id)|, m, n)) <==>
            !RoundRobin.Lopsided(b.groups[k].index, m, n)
  {
    hide Inv;
    hide RunAttempts;
    hide Got;
    hide GroupAttempts;
    hide RoundRobin.FairShare;
    hide RoundRobin.Lopsided;
    hide RoundRobin.Lands;
    var m, n := GroupAttempts(RunAttempts(b, items), b.subs, k), |b.groups[k].members|;
    MemberShare(b, items, k, 0);
    RoundRobin.FairIff(b.groups[k].index, m, n);
    forall r | 0 <= r < n
      ensures b.groups[k].members[r] in GroupIds(b.subs, k)
      ensures |Got(RunAttempts(b, items), b.groups[k].members[r])| == RoundRobin.Lands(b.groups[k].index, m, n, r)
    {
      MemberShare(b, items, k, r);
    }
    forall id | id in GroupIds(b.subs, k) ensures exists r :: 0 <= r < n && b.groups[k].members[r] == id {
      MemberOf(b, k, id);
    }
  }
}
