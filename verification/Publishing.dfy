/**
 What one publish delivers. The matched identifiers are split into fan-out subscriptions and queue-group
 members; each maximal run of one group's key among the latter selects one member, round-robin.
 */
module Publishing {
  import opened Bytes
  import opened Wrappers
  import opened Subjects
  import opened Seqs
  import opened Tries
  import opened Routing
  import opened Delivery
  import opened BrokerState
  import RoundRobin

  type Subs = map<SubId, Subscription>
  type Groups = map<GroupKey, Group>

  // ---- the specification ----

  /** `deliver_queue_group`: the member the counter points at, and the counter moved on. */
  function Select(groups: Groups, k: GroupKey): (Groups, Option<SubId>) {
    if k in groups && groups[k].members != [] then
      var g := groups[k];
      (groups[k := g.(index := RoundRobin.WrapAdd1(g.index))], Some(g.members[RoundRobin.Rem(g.index, |g.members|)]))
    else (groups, None)
  }

  function SelectAll(groups: Groups, refs: seq<KeyRef>): (Groups, seq<SubId>) {
    if refs == [] then (groups, [])
    else
      var (before, chosen) := SelectAll(groups, refs[..|refs| - 1]);
      var (after, pick) := Select(before, refs[|refs| - 1].key);
      (after, if pick.Some? then chosen + [pick.value] else chosen)
  }

  /** The matched identifiers that are in a queue group. */
  function QueueIds(subs: Subs, ids: seq<SubId>): (r: seq<SubId>)
    ensures forall i :: 0 <= i < |r| ==> r[i] in subs && subs[r[i]].key.Some?
  {
    if ids == [] then []
    else
      var last := ids[|ids| - 1];
      QueueIds(subs, ids[..|ids| - 1]) + if last in subs && subs[last].key.Some? then [last] else []
  }

  function RefsOf(subs: Subs, ids: seq<SubId>): (r: seq<KeyRef>)
    requires forall i :: 0 <= i < |ids| ==> ids[i] in subs && subs[ids[i]].key.Some?
    ensures |r| == |ids|
    ensures forall i :: 0 <= i < |ids| ==> r[i] == subs[ids[i]].key.value
  {
    seq(|ids|, i requires 0 <= i < |ids| => subs[ids[i]].key.value)
  }

  function QueueRefs(subs: Subs, ids: seq<SubId>): seq<KeyRef> {
    RefsOf(subs, QueueIds(subs, ids))
  }

  /** The matched identifiers outside any queue group. */
  function FanoutIds(subs: Subs, ids: seq<SubId>): seq<SubId> {
    if ids == [] then []
    else
      var last := ids[|ids| - 1];
      FanoutIds(subs, ids[..|ids| - 1]) + if last in subs && subs[last].key.None? then [last] else []
  }

  /** One pointer per maximal run of adjacent equal pointers. */
  function Collapse(refs: seq<KeyRef>): seq<KeyRef> {
    if refs == [] then []
    else
      var n := |refs|;
      if n >= 2 && refs[n - 1].addr == refs[n - 2].addr then Collapse(refs[..n - 1])
      else Collapse(refs[..n - 1]) + [refs[n - 1]]
  }

  function AttemptFor(subs: Subs, id: SubId, c: Content): Attempt
    requires id in subs
  {
    Attempt(subs[id].handle, DeliveryMessage(id, subs[id].conn, c))
  }

  /** One attempt per identifier that is still registered. */
  function Attempts(subs: Subs, ids: seq<SubId>, c: Content): seq<Attempt> {
    if ids == [] then []
    else
      var last := ids[|ids| - 1];
      Attempts(subs, ids[..|ids| - 1], c) + if last in subs then [AttemptFor(subs, last, c)] else []
  }

  /** `deliver_matches`: a selection per run of a group key, then the fan-out. */
  function DeliverMatches(b: Broker, o: Oracle, out: Out, c: Content, ids: seq<SubId>): (Broker, Out) {
    var (groups, chosen) := SelectAll(b.groups, Collapse(QueueRefs(b.subs, ids)));
    (b.(groups := groups),
     DeliverAll(o, DeliverAll(o, out, Attempts(b.subs, chosen, c)), Attempts(b.subs, FanoutIds(b.subs, ids), c)))
  }

  /** `publish`. */
  function Publish(b: Broker, o: Oracle, out: Out, c: Content): (Broker, Out) {
    DeliverMatches(b, o, out.(published := out.published + 1), c, MatchIds(b.router, c.subject))
  }

  function PublishAttempts(b: Broker, c: Content): seq<Attempt> {
    var ids := MatchIds(b.router, c.subject);
    Attempts(b.subs, SelectAll(b.groups, Collapse(QueueRefs(b.subs, ids))).1, c)
    + Attempts(b.subs, FanoutIds(b.subs, ids), c)
  }

  // ---- selections ----

  /** How many of the pointers are to key `k`. */
  function Occurrences(refs: seq<KeyRef>, k: GroupKey): nat {
    if refs == [] then 0
    else Occurrences(refs[..|refs| - 1], k) + if refs[|refs| - 1].key == k then 1 else 0
  }

  ghost predicate SameMembers(a: Groups, b: Groups) {
    a.Keys == b.Keys && forall k :: k in a ==> a[k].members == b[k].members
  }

  ghost predicate AllPopulated(groups: Groups, refs: seq<KeyRef>) {
    forall i :: 0 <= i < |refs| ==> Members(groups, refs[i].key) != []
  }

  lemma {:induction false} PopulatedPrefix(groups: Groups, refs: seq<KeyRef>)
    requires AllPopulated(groups, refs) && refs != []
    ensures AllPopulated(groups, refs[..|refs| - 1]) && Members(groups, refs[|refs| - 1].key) != []
  {
    var before := refs[..|refs| - 1];
    forall i | 0 <= i < |before| ensures Members(groups, before[i].key) != [] {
      assert before[i] == refs[i];
    }
  }

  /** Selecting never changes a membership. */
  lemma {:induction false} SelectKeepsMembers(groups: Groups, refs: seq<KeyRef>)
    ensures SameMembers(SelectAll(groups, refs).0, groups)
  {
    if refs != [] {
      SelectKeepsMembers(groups, refs[..|refs| - 1]);
    }
  }

  /** A selection moves on the counter of its own group only. */
  lemma {:induction false} SelectCounts(groups: Groups, k: GroupKey, other: GroupKey)
    requires Members(groups, k) != [] && other in groups
    ensures other in Select(groups, k).0
    ensures Select(groups, k).0[other].index
         == if other == k then RoundRobin.WrapAdd1(groups[k].index) else groups[other].index
  {
    hide RoundRobin.Rem, RoundRobin.WrapAdd1;
  }

  /** Each populated group's counter advances by its number of selections. */
  lemma {:induction false} SelectAdvances(groups: Groups, refs: seq<KeyRef>, k: GroupKey)
    requires AllPopulated(groups, refs) && k in groups
    ensures k in SelectAll(groups, refs).0
    ensures SelectAll(groups, refs).0[k].index == RoundRobin.Advance(groups[k].index, Occurrences(refs, k))
  {
    if refs != [] {
      hide Select, RoundRobin.WrapAdd1, AllPopulated;
      var before, last := refs[..|refs| - 1], refs[|refs| - 1].key;
      PopulatedPrefix(groups, refs);
      SelectAdvances(groups, before, k);
      SelectKeepsMembers(groups, before);
      var mid := SelectAll(groups, before).0;
      assert Members(mid, last) == Members(groups, last);
      SelectCounts(mid, last, k);
    }
  }

  lemma {:induction false} SelectYieldsMember(groups: Groups, k: GroupKey)
    requires Members(groups, k) != []
    ensures Select(groups, k).1.Some? && Select(groups, k).1.value in Members(groups, k)
  {
  }

  /** The last of a list of selections adds one member of its group to the choices. */
  lemma {:induction false} SelectLast(groups: Groups, refs: seq<KeyRef>)
    requires AllPopulated(groups, refs) && refs != []
    ensures var before := SelectAll(groups, refs[..|refs| - 1]).1;
            var chosen := SelectAll(groups, refs).1;
            |chosen| == |before| + 1 && chosen[..|before|] == before
            && chosen[|before|] in Members(groups, refs[|refs| - 1].key)
  {
    var before, k := refs[..|refs| - 1], refs[|refs| - 1].key;
    PopulatedPrefix(groups, refs);
    SelectKeepsMembers(groups, before);
    var mid := SelectAll(groups, before).0;
    assert Members(mid, k) == Members(groups, k);
    SelectYieldsMember(mid, k);
  }

  /** Every selection of a populated group yields one of its members. */
  lemma {:induction false} SelectPicksMembers(groups: Groups, refs: seq<KeyRef>)
    requires AllPopulated(groups, refs)
    ensures |SelectAll(groups, refs).1| == |refs|
    ensures forall i :: 0 <= i < |refs| ==> SelectAll(groups, refs).1[i] in Members(groups, refs[i].key)
  {
    if refs != [] {
      var before := refs[..|refs| - 1];
      PopulatedPrefix(groups, refs);
      SelectPicksMembers(groups, before);
      SelectLast(groups, refs);
      var picks, chosen := SelectAll(groups, before).1, SelectAll(groups, refs).1;
      forall i | 0 <= i < |refs| ensures chosen[i] in Members(groups, refs[i].key) {
        if i < |before| {
          assert chosen[i] == picks[i] && before[i] == refs[i];
        }
      }
    }
  }

  /** The selections made for group `k`, in order. */
  function PicksOf(refs: seq<KeyRef>, chosen: seq<SubId>, k: GroupKey): seq<SubId>
    requires |refs| == |chosen|
  {
    if refs == [] then []
    else
      var n := |refs| - 1;
      PicksOf(refs[..n], chosen[..n], k) + if refs[n].key == k then [chosen[n]] else []
  }

  /** `m` steps round a member list from counter `start`. */
  function Walk(members: seq<SubId>, start: RoundRobin.Word, m: nat): (r: seq<SubId>)
    requires members != []
    ensures |r| == m
  {
    if m == 0 then []
    else Walk(members, start, m - 1) + [members[RoundRobin.Rem(RoundRobin.Advance(start, m - 1), |members|)]]
  }

  lemma {:induction false} LastPick(groups: Groups, refs: seq<KeyRef>, k: GroupKey)
    requires refs != [] && AllPopulated(groups, refs) && k in groups && refs[|refs| - 1].key == k
    requires groups[k].members != []
    ensures |SelectAll(groups, refs).1| == |refs|
    ensures var at := RoundRobin.Advance(groups[k].index, Occurrences(refs[..|refs| - 1], k));
            SelectAll(groups, refs).1[|refs| - 1] == groups[k].members[RoundRobin.Rem(at, |groups[k].members|)]
  {
    var before := refs[..|refs| - 1];
    PopulatedPrefix(groups, refs);
    SelectPicksMembers(groups, refs);
    SelectPicksMembers(groups, before);
    SelectKeepsMembers(groups, before);
    SelectAdvances(groups, before, k);
  }

  /** Whatever other groups are served in between, a group's selections walk round its member list. */
  lemma {:induction false} PicksWalk(groups: Groups, refs: seq<KeyRef>, k: GroupKey)
    requires AllPopulated(groups, refs) && k in groups && groups[k].members != []
    ensures |SelectAll(groups, refs).1| == |refs|
    ensures PicksOf(refs, SelectAll(groups, refs).1, k)
         == Walk(groups[k].members, groups[k].index, Occurrences(refs, k))
  {
    SelectPicksMembers(groups, refs);
    if refs != [] {
      PopulatedPrefix(groups, refs);
      PicksWalk(groups, refs[..|refs| - 1], k);
      SelectLast(groups, refs);
      if refs[|refs| - 1].key == k {
        LastPick(groups, refs, k);
      }
    }
  }

  function Count(s: seq<SubId>, id: SubId): nat {
    if s == [] then 0 else Count(s[..|s| - 1], id) + if s[|s| - 1] == id then 1 else 0
  }

  lemma {:induction false} WalkCount(members: seq<SubId>, start: RoundRobin.Word, m: nat, r: nat)
    requires r < |members| && NoDup(members)
    ensures Count(Walk(members, start, m), members[r]) == RoundRobin.Lands(start, m, |members|, r)
  {
    hide RoundRobin.Advance;
    hide RoundRobin.Rem;
    if m > 0 {
      WalkCount(members, start, m - 1, r);
      var before := Walk(members, start, m - 1);
      var step := RoundRobin.Rem(RoundRobin.Advance(start, m - 1), |members|);
      assert (before + [members[step]])[..|before|] == before;
      assert members[step] == members[r] <==> step == r;
    }
  }

  /**
   Round-robin fairness: while membership is unchanged, any number m of selections of a group of n,
   interleaved with any others, goes floor(m/n) or ceil(m/n) times to each member, unless it passes a wrap
   that n does not divide.
   */
  lemma {:induction false} RoundRobinIsFair(groups: Groups, refs: seq<KeyRef>, k: GroupKey, r: nat)
    requires AllPopulated(groups, refs) && k in groups && NoDup(groups[k].members)
    requires r < |groups[k].members|
    requires RoundRobin.Smooth(groups[k].index, Occurrences(refs, k), |groups[k].members|)
    ensures |SelectAll(groups, refs).1| == |refs|
    ensures var m, n := Occurrences(refs, k), |groups[k].members|;
            m / n <= Count(PicksOf(refs, SelectAll(groups, refs).1, k), groups[k].members[r])
                  <= m / n + if m % n == 0 then 0 else 1
  {
    var m, n := Occurrences(refs, k), |groups[k].members|;
    PicksWalk(groups, refs, k);
    WalkCount(groups[k].members, groups[k].index, m, r);
    RoundRobin.LandsSmoothly(groups[k].index, m, n, r);
    RoundRobin.HitsAreFair(groups[k].index, m, n, r);
  }

  /**
   Past the wrap once, the selections are shared out so if and only if there is not both a member served in
   the partial round before the wrap and in that after it, and a member served in neither.
   */
  lemma {:induction false} RoundRobinIsFairIff(groups: Groups, refs: seq<KeyRef>, k: GroupKey)
    requires AllPopulated(groups, refs) && k in groups && groups[k].members != [] && NoDup(groups[k].members)
    requires groups[k].index + Occurrences(refs, k) <= 2 * RoundRobin.USIZE
    ensures |SelectAll(groups, refs).1| == |refs|
    ensures var m, n := Occurrences(refs, k), |groups[k].members|;
            var picks := PicksOf(refs, SelectAll(groups, refs).1, k);
            (forall r :: 0 <= r < n ==> RoundRobin.FairShare(Count(picks, groups[k].members[r]), m, n)) <==>
            !RoundRobin.Lopsided(groups[k].index, m, n)
  {
    hide AllPopulated;
    hide SelectAll;
    hide RoundRobin.FairShare;
    hide RoundRobin.Lopsided;
    var m, n := Occurrences(refs, k), |groups[k].members|;
    PicksWalk(groups, refs, k);
    var picks := PicksOf(refs, SelectAll(groups, refs).1, k);
    forall r | 0 <= r < n
      ensures Count(picks, groups[k].members[r]) == RoundRobin.Lands(groups[k].index, m, n, r)
    {
      WalkCount(groups[k].members, groups[k].index, m, r);
    }
    RoundRobin.FairIff(groups[k].index, m, n);
  }

  /** When the counter wraps, the rotation goes on in order if and only if the group's size divides 2^64. */
  lemma {:induction false} WrapContinuesIff(groups: Groups, ref: KeyRef)
    requires ref.key in groups && groups[ref.key].members != [] && NoDup(groups[ref.key].members)
    requires groups[ref.key].index == RoundRobin.USIZE - 1
    ensures var ms := groups[ref.key].members;
            var at := RoundRobin.Rem(RoundRobin.USIZE - 1, |ms|);
            && SelectAll(groups, [ref, ref]).1 == [ms[at], ms[0]]
            && (ms[0] == ms[RoundRobin.Rem(at + 1, |ms|)] <==> RoundRobin.USIZE % |ms| == 0)
  {
    var ms := groups[ref.key].members;
    RoundRobin.RemNext(RoundRobin.USIZE - 1, |ms|);
    RoundRobin.RemIsModulo(RoundRobin.USIZE, |ms|);
    assert [ref, ref][..1] == [ref] && [ref][..0] == [];
    assert SelectAll(groups, []) == (groups, []);
    assert SelectAll(groups, [ref]).0[ref.key].index == 0;
  }

  // ---- runs of one key ----

  /** How many maximal runs of key `k` there are. */
  function RunStarts(refs: seq<KeyRef>, k: GroupKey): nat {
    if refs == [] then 0
    else
      var n := |refs|;
      RunStarts(refs[..n - 1], k) + if refs[n - 1].key == k && (n == 1 || refs[n - 2].key != k) then 1 else 0
  }

  /** Neighbouring pointers agree exactly when their keys do. */
  ghost predicate Interned(refs: seq<KeyRef>) {
    forall i :: 1 <= i < |refs| ==> (refs[i].addr == refs[i - 1].addr <==> refs[i].key == refs[i - 1].key)
  }

  lemma {:induction false} CollapseCounts(refs: seq<KeyRef>, k: GroupKey)
    requires Interned(refs)
    ensures Occurrences(Collapse(refs), k) == RunStarts(refs, k)
  {
    if refs != [] {
      var n := |refs|;
      var before := refs[..n - 1];
      CollapseCounts(before, k);
      var c := Collapse(before);
      assert (c + [refs[n - 1]])[..|c|] == c;
    }
  }

  lemma {:induction false} CollapseSubset(refs: seq<KeyRef>, ref: KeyRef)
    requires ref in Collapse(refs)
    ensures ref in refs
  {
    if refs != [] {
      var before := refs[..|refs| - 1];
      if ref in Collapse(before) {
        CollapseSubset(before, ref);
      }
    }
  }

  ghost predicate HasKey(refs: seq<KeyRef>, k: GroupKey) {
    exists i :: 0 <= i < |refs| && refs[i].key == k
  }

  /** The pointers to `k` stand together. */
  ghost predicate Contiguous(refs: seq<KeyRef>, k: GroupKey) {
    forall i, j, l :: 0 <= i < j < l < |refs| && refs[i].key == k && refs[l].key == k ==> refs[j].key == k
  }

  /** A key has one run exactly when it occurs and its occurrences stand together. */
  lemma {:induction false} OneRun(refs: seq<KeyRef>, k: GroupKey)
    ensures RunStarts(refs, k) == 0 <==> !HasKey(refs, k)
    ensures RunStarts(refs, k) <= 1 <==> Contiguous(refs, k)
  {
    if refs != [] {
      var n := |refs|;
      var before := refs[..n - 1];
      OneRun(before, k);
      assert HasKey(before, k) ==> HasKey(refs, k) by {
        if i :| 0 <= i < |before| && before[i].key == k {
          assert refs[i].key == k;
        }
      }
      assert HasKey(refs, k) ==> refs[n - 1].key == k || HasKey(before, k) by {
        if i :| 0 <= i < |refs| && refs[i].key == k {
          assert i == n - 1 || before[i].key == k;
        }
      }
      assert refs[n - 1].key == k ==> HasKey(refs, k);
      assert Contiguous(refs, k) ==> Contiguous(before, k) by {
        assert forall i :: 0 <= i < |before| ==> before[i] == refs[i];
      }
      if refs[n - 1].key == k && n >= 2 && refs[n - 2].key != k {
        LateRun(refs, k);
      } else if Contiguous(before, k) {
        EarlyRuns(refs, k);
      }
    }
  }

  /** A fresh run of `k` at the end breaks contiguity exactly when `k` occurred before. */
  lemma {:induction false} LateRun(refs: seq<KeyRef>, k: GroupKey)
    requires |refs| >= 2 && refs[|refs| - 1].key == k && refs[|refs| - 2].key != k
    ensures HasKey(refs[..|refs| - 1], k) ==> !Contiguous(refs, k)
    ensures !HasKey(refs[..|refs| - 1], k) ==> Contiguous(refs, k)
  {
    var n := |refs|;
    var before := refs[..n - 1];
    if HasKey(before, k) {
      var i :| 0 <= i < |before| && before[i].key == k;
      assert refs[i].key == k && i < n - 2;
      assert !(refs[n - 2].key == k);
    } else {
      forall i | 0 <= i < n - 1 ensures refs[i].key != k {
        assert before[i] == refs[i];
      }
    }
  }

  /** Extending the current run, or adding another key, keeps contiguity. */
  lemma {:induction false} EarlyRuns(refs: seq<KeyRef>, k: GroupKey)
    requires |refs| >= 1 && Contiguous(refs[..|refs| - 1], k)
    requires refs[|refs| - 1].key == k && |refs| >= 2 ==> refs[|refs| - 2].key == k
    ensures Contiguous(refs, k)
  {
    var n := |refs|;
    var before := refs[..n - 1];
    forall i, j, l | 0 <= i < j < l < n && refs[i].key == k && refs[l].key == k ensures refs[j].key == k {
      if l == n - 1 {
        if j < n - 2 {
          assert before[i].key == k && before[n - 2].key == k && before[j] == refs[j];
        }
      } else {
        assert before[i] == refs[i] && before[j] == refs[j] && before[l] == refs[l];
      }
    }
  }

  // ---- what a publish attempts ----

  lemma {:induction false} FanoutLaw(subs: Subs, ids: seq<SubId>)
    ensures forall id :: id in FanoutIds(subs, ids) <==> id in ids && id in subs && subs[id].key.None?
    ensures NoDup(ids) ==> NoDup(FanoutIds(subs, ids))
  {
    if ids != [] {
      var before, last := ids[..|ids| - 1], ids[|ids| - 1];
      FanoutLaw(subs, before);
      assert ids == before + [last];
      if NoDup(ids) {
        assert last !in before;
        NoDupAppend(FanoutIds(subs, before), last);
      }
    }
  }

  lemma {:induction false} QueueLaw(subs: Subs, ids: seq<SubId>)
    ensures forall id :: id in QueueIds(subs, ids) <==> id in ids && id in subs && subs[id].key.Some?
    ensures NoDup(ids) ==> NoDup(QueueIds(subs, ids))
  {
    if ids != [] {
      var before, last := ids[..|ids| - 1], ids[|ids| - 1];
      QueueLaw(subs, before);
      assert ids == before + [last];
      if NoDup(ids) {
        assert last !in before;
        NoDupAppend(QueueIds(subs, before), last);
      }
    }
  }

  /** Everyone on a duplicate-free list gets the message once, everyone else not at all. */
  lemma {:induction false} GotOnce(subs: Subs, ids: seq<SubId>, c: Content, id: SubId)
    requires forall i :: 0 <= i < |ids| ==> ids[i] in subs
    ensures id !in ids ==> Got(Attempts(subs, ids, c), id) == []
    ensures id in ids && NoDup(ids) ==> Got(Attempts(subs, ids, c), id) == [c]
  {
    if ids != [] {
      var before, last := ids[..|ids| - 1], ids[|ids| - 1];
      GotOnce(subs, before, c, id);
      assert ids == before + [last];
      var tried := Attempts(subs, before, c);
      assert (tried + [AttemptFor(subs, last, c)])[..|tried|] == tried;
      if NoDup(ids) {
        assert last !in before;
      }
    }
  }

  lemma {:induction false} AttemptsShape(subs: Subs, ids: seq<SubId>, c: Content)
    requires forall i :: 0 <= i < |ids| ==> ids[i] in subs
    ensures |Attempts(subs, ids, c)| == |ids|
    ensures forall i :: 0 <= i < |ids| ==> Attempts(subs, ids, c)[i] == AttemptFor(subs, ids[i], c)
  {
    if ids != [] {
      AttemptsShape(subs, ids[..|ids| - 1], c);
    }
  }

  /** Attempts whose target is a member of group `k`. */
  function GroupAttempts(attempts: seq<Attempt>, subs: Subs, k: GroupKey): nat {
    if attempts == [] then 0
    else
      GroupAttempts(attempts[..|attempts| - 1], subs, k)
      + if attempts[|attempts| - 1].msg.sub in GroupIds(subs, k) then 1 else 0
  }

  lemma {:induction false} GroupAttemptsConcat(a: seq<Attempt>, b: seq<Attempt>, subs: Subs, k: GroupKey)
    ensures GroupAttempts(a + b, subs, k) == GroupAttempts(a, subs, k) + GroupAttempts(b, subs, k)
  {
    if b == [] {
      assert a + b == a;
    } else {
      GroupAttemptsConcat(a, b[..|b| - 1], subs, k);
      assert (a + b)[..|a + b| - 1] == a + b[..|b| - 1];
    }
  }

  lemma {:induction false} ChosenCount(subs: Subs, refs: seq<KeyRef>, chosen: seq<SubId>, c: Content, k: GroupKey)
    requires |chosen| == |refs|
    requires forall i :: 0 <= i < |refs| ==> chosen[i] in GroupIds(subs, refs[i].key)
    ensures GroupAttempts(Attempts(subs, chosen, c), subs, k) == Occurrences(refs, k)
  {
    if refs != [] {
      var n := |refs|;
      ChosenCount(subs, refs[..n - 1], chosen[..n - 1], c, k);
      var tried := Attempts(subs, chosen[..n - 1], c);
      assert chosen[n - 1] in GroupIds(subs, refs[n - 1].key);
      assert (tried + [AttemptFor(subs, chosen[n - 1], c)])[..|tried|] == tried;
    }
  }

  lemma {:induction false} FanoutCount(subs: Subs, ids: seq<SubId>, c: Content, k: GroupKey)
    requires forall i :: 0 <= i < |ids| ==> ids[i] in subs && subs[ids[i]].key.None?
    ensures GroupAttempts(Attempts(subs, ids, c), subs, k) == 0
  {
    if ids != [] {
      FanoutCount(subs, ids[..|ids| - 1], c, k);
      var tried := Attempts(subs, ids[..|ids| - 1], c);
      assert (tried + [AttemptFor(subs, ids[|ids| - 1], c)])[..|tried|] == tried;
    }
  }

  /** In a consistent broker a lookup is a scan of the live subscriptions. */
  lemma {:induction false} MatchScan(b: Broker, s: Subject)
    requires Inv(b) && ValidSubject(s)
    ensures NoDup(MatchIds(b.router, s))
    ensures forall id :: id in MatchIds(b.router, s) <==>
              id in b.subs && MatchTokens(b.subs[id].pattern.tokens, s.tokens)
  {
    assert Holds(b, Router);
    MatchIdsExact(b.router, Patterns(b.subs), s);
  }

  /** In a consistent broker the matched queue pointers are interned and their groups populated. */
  lemma {:induction false} RefsOk(b: Broker, ids: seq<SubId>)
    requires Inv(b)
    ensures Interned(QueueRefs(b.subs, ids))
    ensures AllPopulated(b.groups, QueueRefs(b.subs, ids))
    ensures AllPopulated(b.groups, Collapse(QueueRefs(b.subs, ids)))
  {
    assert Holds(b, Subscriptions) && Holds(b, QueueGroups) && Holds(b, Keys);
    var qs := QueueIds(b.subs, ids);
    var refs := QueueRefs(b.subs, ids);
    forall i | 0 <= i < |refs| ensures refs[i].key in b.keys && b.keys[refs[i].key] == refs[i] {
      assert SubOk(qs[i], b.subs[qs[i]], b.keys);
    }
    forall i | 0 <= i < |refs| ensures Members(b.groups, refs[i].key) != [] {
      var k := refs[i].key;
      assert Indexes(Members(b.groups, k), GroupIds(b.subs, k));
      assert qs[i] in GroupIds(b.subs, k);
    }
    var runs := Collapse(refs);
    forall i | 0 <= i < |runs| ensures Members(b.groups, runs[i].key) != [] {
      CollapseSubset(refs, runs[i]);
    }
  }

  /** The selected members are live members of the groups they were selected for. */
  lemma {:induction false} ChosenLive(b: Broker, refs: seq<KeyRef>)
    requires GroupInv(b.subs, b.groups) && AllPopulated(b.groups, refs)
    ensures var chosen := SelectAll(b.groups, refs).1;
            && |chosen| == |refs|
            && (forall i :: 0 <= i < |refs| ==> chosen[i] in GroupIds(b.subs, refs[i].key))
            && (forall i :: 0 <= i < |chosen| ==> chosen[i] in b.subs && b.subs[chosen[i]].key.Some?)
  {
    SelectPicksMembers(b.groups, refs);
    var chosen := SelectAll(b.groups, refs).1;
    forall i | 0 <= i < |refs| ensures chosen[i] in GroupIds(b.subs, refs[i].key) {
      var k := refs[i].key;
      assert Indexes(Members(b.groups, k), GroupIds(b.subs, k));
      assert chosen[i] in Members(b.groups, k);
    }
  }

  /** The log grows by exactly the planned attempts, each of them counted. */
  lemma {:induction false} PublishLog(b: Broker, o: Oracle, out: Out, c: Content)
    ensures AttemptsOf(Publish(b, o, out, c).1.log) == AttemptsOf(out.log) + PublishAttempts(b, c)
    ensures var out' := Publish(b, o, out, c).1;
            && out'.delivered + out'.dropped == out.delivered + out.dropped + |PublishAttempts(b, c)|
            && out'.published == out.published + 1
            && out' == DeliverAll(o, out.(published := out.published + 1), PublishAttempts(b, c))
  {
    var ids := MatchIds(b.router, c.subject);
    var first := Attempts(b.subs, SelectAll(b.groups, Collapse(QueueRefs(b.subs, ids))).1, c);
    var second := Attempts(b.subs, FanoutIds(b.subs, ids), c);
    DeliverAllConcat(o, out.(published := out.published + 1), first, second);
    DeliverAllLog(o, out.(published := out.published + 1), first + second);
    DeliverAllCounts(o, out.(published := out.published + 1), first + second);
  }

  /** The plan of a publish: whom the groups select, and the fan-out list. */
  lemma {:induction false} PublishPlan(b: Broker, c: Content)
    requires Inv(b) && ValidSubject(c.subject)
    ensures var ids := MatchIds(b.router, c.subject);
            var runs := Collapse(QueueRefs(b.subs, ids));
            var chosen := SelectAll(b.groups, runs).1;
            var fan := FanoutIds(b.subs, ids);
            && |chosen| == |runs|
            && (forall i :: 0 <= i < |runs| ==>
                  chosen[i] in GroupIds(b.subs, runs[i].key) && runs[i] in QueueRefs(b.subs, ids))
            && (forall i :: 0 <= i < |chosen| ==> chosen[i] in b.subs && b.subs[chosen[i]].key.Some?)
            && (forall i :: 0 <= i < |fan| ==> fan[i] in b.subs && b.subs[fan[i]].key.None?)
            && NoDup(fan)
            && (forall id :: id in fan <==>
                  id in b.subs && b.subs[id].key.None? && MatchTokens(b.subs[id].pattern.tokens, c.subject.tokens))
  {
    var ids := MatchIds(b.router, c.subject);
    var refs := QueueRefs(b.subs, ids);
    MatchScan(b, c.subject);
    RefsOk(b, ids);
    assert Holds(b, QueueGroups);
    ChosenLive(b, Collapse(refs));
    forall ref | ref in Collapse(refs) ensures ref in refs {
      CollapseSubset(refs, ref);
    }
    FanoutLaw(b.subs, ids);
    var fan := FanoutIds(b.subs, ids);
    forall i | 0 <= i < |fan| ensures fan[i] in b.subs && b.subs[fan[i]].key.None? {
      assert fan[i] in fan;
    }
  }

  /** A publish attempts each live matching subscription outside queue groups once, and no other such one. */
  lemma {:induction false} PublishFansOut(b: Broker, c: Content, id: SubId)
    requires Inv(b) && ValidSubject(c.subject)
    requires id in b.subs && b.subs[id].key.None?
    ensures Got(PublishAttempts(b, c), id)
         == if MatchTokens(b.subs[id].pattern.tokens, c.subject.tokens) then [c] else []
  {
    PublishPlan(b, c);
    var ids := MatchIds(b.router, c.subject);
    var chosen := SelectAll(b.groups, Collapse(QueueRefs(b.subs, ids))).1;
    var fan := FanoutIds(b.subs, ids);
    GotConcat(Attempts(b.subs, chosen, c), Attempts(b.subs, fan, c), id);
    GotOnce(b.subs, chosen, c, id);
    GotOnce(b.subs, fan, c, id);
  }

  /** A publish serves a group once per maximal run of its key among the matched queue subscriptions. */
  lemma {:induction false} PublishServesRuns(b: Broker, c: Content, k: GroupKey)
    requires Inv(b) && ValidSubject(c.subject)
    ensures GroupAttempts(PublishAttempts(b, c), b.subs, k)
         == RunStarts(QueueRefs(b.subs, MatchIds(b.router, c.subject)), k)
  {
    PublishPlan(b, c);
    var ids := MatchIds(b.router, c.subject);
    var refs := QueueRefs(b.subs, ids);
    var chosen := SelectAll(b.groups, Collapse(refs)).1;
    var fan := FanoutIds(b.subs, ids);
    RefsOk(b, ids);
    GroupAttemptsConcat(Attempts(b.subs, chosen, c), Attempts(b.subs, fan, c), b.subs, k);
    ChosenCount(b.subs, Collapse(refs), chosen, c, k);
    FanoutCount(b.subs, fan, c, k);
    CollapseCounts(refs, k);
  }

  /** Every attempt goes to a live subscription whose pattern matches, with its own handle and connection. */
  lemma {:induction false} PublishOnlyMatching(b: Broker, c: Content, i: nat)
    requires Inv(b) && ValidSubject(c.subject)
    requires i < |PublishAttempts(b, c)|
    ensures var a := PublishAttempts(b, c)[i];
            && a.msg.sub in b.subs && a.msg.content == c
            && a.handle == b.subs[a.msg.sub].handle && a.msg.conn == b.subs[a.msg.sub].conn
            && MatchTokens(b.subs[a.msg.sub].pattern.tokens, c.subject.tokens)
  {
    PublishPlan(b, c);
    var ids := MatchIds(b.router, c.subject);
    var runs := Collapse(QueueRefs(b.subs, ids));
    var chosen := SelectAll(b.groups, runs).1;
    var fan := FanoutIds(b.subs, ids);
    AttemptsShape(b.subs, chosen, c);
    AttemptsShape(b.subs, fan, c);
    if i < |chosen| {
      MatchScan(b, c.subject);
      ChosenMatches(b, c, ids, runs[i], chosen[i]);
    } else {
      assert fan[i - |chosen|] in fan;
    }
  }

  /** A member selected for a matched group matches too: all members of a group have its pattern. */
  lemma {:induction false} ChosenMatches(b: Broker, c: Content, ids: seq<SubId>, ref: KeyRef, id: SubId)
    requires Inv(b)
    requires forall i :: i in ids ==> i in b.subs && MatchTokens(b.subs[i].pattern.tokens, c.subject.tokens)
    requires ref in QueueRefs(b.subs, ids) && id in GroupIds(b.subs, ref.key)
    ensures MatchTokens(b.subs[id].pattern.tokens, c.subject.tokens)
  {
    Open(b);
    var qs := QueueIds(b.subs, ids);
    var j :| 0 <= j < |qs| && b.subs[qs[j]].key.value == ref;
    QueueLaw(b.subs, ids);
    assert qs[j] in qs;
    assert SubOk(id, b.subs[id], b.keys) && SubOk(qs[j], b.subs[qs[j]], b.keys);
    assert id in Patterns(b.subs) && qs[j] in Patterns(b.subs);
    PatternTextInjective(b.subs[id].pattern, b.subs[qs[j]].pattern);
  }

  // ---- one attempt per group ----

  /** Group `k` has a live member whose pattern matches. */
  ghost predicate MatchingGroup(b: Broker, c: Content, k: GroupKey) {
    exists id :: id in GroupIds(b.subs, k) && MatchTokens(b.subs[id].pattern.tokens, c.subject.tokens)
  }

  /** No pattern carries two group names. */
  ghost predicate OneNamePerPattern(b: Broker) {
    forall i, j ::
      (i in b.subs && j in b.subs && b.subs[i].key.Some? && b.subs[j].key.Some?
       && b.subs[i].pattern == b.subs[j].pattern) ==> b.subs[i].group == b.subs[j].group
  }

  lemma {:induction false} KeysOfMatches(subs: Subs, ids: seq<SubId>, k: GroupKey)
    ensures HasKey(QueueRefs(subs, ids), k) <==> exists id :: id in ids && id in GroupIds(subs, k)
  {
    var qs, refs := QueueIds(subs, ids), QueueRefs(subs, ids);
    QueueLaw(subs, ids);
    if HasKey(refs, k) {
      var i :| 0 <= i < |refs| && refs[i].key == k;
      assert qs[i] in qs;
    }
    if id :| id in ids && id in GroupIds(subs, k) {
      assert id in qs;
      var i :| 0 <= i < |qs| && qs[i] == id;
      assert refs[i].key == k;
    }
  }

  lemma {:induction false} MatchedKeys(b: Broker, c: Content, k: GroupKey)
    requires Inv(b) && ValidSubject(c.subject)
    ensures HasKey(QueueRefs(b.subs, MatchIds(b.router, c.subject)), k) <==> MatchingGroup(b, c, k)
  {
    MatchScan(b, c.subject);
    KeysOfMatches(b.subs, MatchIds(b.router, c.subject), k);
  }

  /** Where in the match list each queue subscription stands. */
  ghost function QueuePositions(subs: Subs, ids: seq<SubId>): (r: seq<nat>)
    ensures |r| == |QueueIds(subs, ids)| && Ascending(r)
    ensures forall i :: 0 <= i < |r| ==> r[i] < |ids| && ids[r[i]] == QueueIds(subs, ids)[i]
  {
    if ids == [] then []
    else
      var last := ids[|ids| - 1];
      QueuePositions(subs, ids[..|ids| - 1]) + if last in subs && subs[last].key.Some? then [|ids| - 1] else []
  }

  lemma {:induction false} OneNameContiguous(b: Broker, c: Content, k: GroupKey)
    requires Inv(b) && ValidSubject(c.subject) && OneNamePerPattern(b)
    ensures Contiguous(QueueRefs(b.subs, MatchIds(b.router, c.subject)), k)
  {
    var ids := MatchIds(b.router, c.subject);
    var qs, refs := QueueIds(b.subs, ids), QueueRefs(b.subs, ids);
    var live := Patterns(b.subs);
    Open(b);
    MatchIdsTogether(b.router, live, c.subject);
    var at := QueuePositions(b.subs, ids);
    forall i, j, l | 0 <= i < j < l < |refs| && refs[i].key == k && refs[l].key == k ensures refs[j].key == k {
      assert SubOk(qs[i], b.subs[qs[i]], b.keys) && SubOk(qs[j], b.subs[qs[j]], b.keys);
      assert SubOk(qs[l], b.subs[qs[l]], b.keys);
      assert qs[i] in live && qs[j] in live && qs[l] in live;
      PatternTextInjective(live[qs[i]], live[qs[l]]);
      assert ids[at[i]] == qs[i] && ids[at[j]] == qs[j] && ids[at[l]] == qs[l];
      assert at[i] < at[j] < at[l];
      assert live[qs[j]] == live[qs[i]];
    }
  }

  /** When no pattern carries two group names, each matching group is served exactly once. */
  lemma {:induction false} PublishServesGroupOnce(b: Broker, c: Content, k: GroupKey)
    requires Inv(b) && ValidSubject(c.subject) && OneNamePerPattern(b)
    ensures GroupAttempts(PublishAttempts(b, c), b.subs, k) == if MatchingGroup(b, c, k) then 1 else 0
  {
    PublishServesRuns(b, c, k);
    MatchedKeys(b, c, k);
    OneNameContiguous(b, c, k);
    OneRun(QueueRefs(b.subs, MatchIds(b.router, c.subject)), k);
  }

  lemma {:induction false} PublishServesOnceIffTogether(b: Broker, c: Content, k: GroupKey)
    requires Inv(b) && ValidSubject(c.subject) && MatchingGroup(b, c, k)
    ensures GroupAttempts(PublishAttempts(b, c), b.subs, k) == 1 <==>
            Contiguous(QueueRefs(b.subs, MatchIds(b.router, c.subject)), k)
  {
    PublishServesRuns(b, c, k);
    MatchedKeys(b, c, k);
    OneRun(QueueRefs(b.subs, MatchIds(b.router, c.subject)), k);
  }

  /** `x` subscribes to group `k`'s pattern in another group. */
  ghost predicate Rival(b: Broker, k: GroupKey, x: SubId) {
    && x in b.subs && b.subs[x].pattern.raw == k.pattern
    && b.subs[x].group.Some? && b.subs[x].group != Some(k.name)
  }

  /** Some rival subscribed between two live members of group `k`. */
  ghost predicate Interleaved(b: Broker, k: GroupKey) {
    exists i: SubId, x: SubId, j: SubId ::
      i in GroupIds(b.subs, k) && j in GroupIds(b.subs, k) && Rival(b, k, x) && i < x < j
  }

  /** Among the matched queue subscriptions, those of one pattern stand together and in subscribe order. */
  lemma {:induction false} QueueInOrder(b: Broker, s: Subject)
    requires Inv(b) && ValidSubject(s)
    ensures var qs := QueueIds(b.subs, MatchIds(b.router, s));
            InOrder(qs, Patterns(b.subs)) && Together(qs, Patterns(b.subs))
  {
    var ids, live := MatchIds(b.router, s), Patterns(b.subs);
    var qs, at := QueueIds(b.subs, ids), QueuePositions(b.subs, ids);
    assert Holds(b, Router) && Holds(b, RouterOrder);
    MatchIdsInOrder(b.router, live, s);
    MatchIdsTogether(b.router, live, s);
    forall i, j | 0 <= i < j < |qs| ensures live[qs[i]] == live[qs[j]] ==> qs[i] < qs[j] {
      assert at[i] < at[j] && ids[at[i]] == qs[i] && ids[at[j]] == qs[j];
    }
    forall i, j, l | 0 <= i < j < l < |qs|
      ensures live[qs[i]] == live[qs[l]] ==> live[qs[j]] == live[qs[i]]
    {
      assert at[i] < at[j] < at[l];
      assert ids[at[i]] == qs[i] && ids[at[j]] == qs[j] && ids[at[l]] == qs[l];
    }
  }

  /** A queue subscription's key says its pattern text and group name. */
  lemma {:induction false} KeySays(b: Broker, x: SubId)
    requires Inv(b) && x in b.subs && b.subs[x].key.Some?
    ensures b.subs[x].group.Some?
    ensures b.subs[x].key.value.key == GroupKey(b.subs[x].pattern.raw, b.subs[x].group.value)
  {
    assert Holds(b, Subscriptions) && Holds(b, Keys);
    assert SubOk(x, b.subs[x], b.keys);
  }

  lemma {:induction false} SamePattern(b: Broker, x: SubId, y: SubId)
    requires Inv(b) && x in b.subs && y in b.subs && b.subs[x].pattern.raw == b.subs[y].pattern.raw
    ensures b.subs[x].pattern == b.subs[y].pattern
  {
    assert Holds(b, Router);
    assert x in Patterns(b.subs) && y in Patterns(b.subs);
    PatternTextInjective(b.subs[x].pattern, b.subs[y].pattern);
  }

  lemma {:induction false} BetweenIsRival(b: Broker, qs: seq<SubId>, k: GroupKey, i: nat, j: nat, l: nat)
    requires Inv(b) && forall n :: 0 <= n < |qs| ==> qs[n] in b.subs && b.subs[qs[n]].key.Some?
    requires InOrder(qs, Patterns(b.subs)) && Together(qs, Patterns(b.subs)) && i < j < l < |qs|
    requires b.subs[qs[i]].key.value.key == k && b.subs[qs[l]].key.value.key == k
    requires b.subs[qs[j]].key.value.key != k
    ensures Rival(b, k, qs[j]) && qs[i] < qs[j] < qs[l]
  {
    hide Inv;
    KeySays(b, qs[i]);
    KeySays(b, qs[j]);
    KeySays(b, qs[l]);
    SamePattern(b, qs[i], qs[l]);
    var live := Patterns(b.subs);
    assert live[qs[i]] == live[qs[l]];
    assert live[qs[j]] == live[qs[i]];
  }

  lemma {:induction false} SplitAt(refs: seq<KeyRef>, k: GroupKey) returns (i: nat, j: nat, l: nat)
    requires !Contiguous(refs, k)
    ensures i < j < l < |refs| && refs[i].key == k && refs[l].key == k && refs[j].key != k
  {
    i, j, l :| 0 <= i < j < l < |refs| && refs[i].key == k && refs[l].key == k && refs[j].key != k;
  }

  lemma {:induction false} SplitMeansRival(b: Broker, s: Subject, k: GroupKey)
    requires Inv(b) && ValidSubject(s) && !Contiguous(QueueRefs(b.subs, MatchIds(b.router, s)), k)
    ensures Interleaved(b, k)
  {
    hide Inv;
    hide ValidSubject;
    hide MatchIds;
    hide QueueIds;
    hide Contiguous;
    hide InOrder;
    hide Together;
    hide Rival;
    var ids := MatchIds(b.router, s);
    var qs, refs := QueueIds(b.subs, ids), QueueRefs(b.subs, ids);
    QueueInOrder(b, s);
    var i, j, l := SplitAt(refs, k);
    BetweenIsRival(b, qs, k, i, j, l);
    assert qs[i] in GroupIds(b.subs, k) && qs[l] in GroupIds(b.subs, k);
  }

  /** A live subscription of a matched pattern has its place among the matched queue subscriptions. */
  lemma {:induction false} PlaceOf(b: Broker, s: Subject, x: SubId) returns (i: nat)
    requires Inv(b) && ValidSubject(s) && x in b.subs && b.subs[x].key.Some?
    requires MatchTokens(b.subs[x].pattern.tokens, s.tokens)
    ensures i < |QueueIds(b.subs, MatchIds(b.router, s))| && QueueIds(b.subs, MatchIds(b.router, s))[i] == x
  {
    MatchScan(b, s);
    QueueLaw(b.subs, MatchIds(b.router, s));
    i :| 0 <= i < |QueueIds(b.subs, MatchIds(b.router, s))| && QueueIds(b.subs, MatchIds(b.router, s))[i] == x;
  }

  lemma {:induction false} RivalMeansSplit(b: Broker, c: Content, k: GroupKey)
    requires Inv(b) && ValidSubject(c.subject) && MatchingGroup(b, c, k) && Interleaved(b, k)
    ensures !Contiguous(QueueRefs(b.subs, MatchIds(b.router, c.subject)), k)
  {
    hide Inv;
    hide ValidSubject;
    hide MatchIds;
    hide QueueIds;
    var s := c.subject;
    var qs, refs := QueueIds(b.subs, MatchIds(b.router, s)), QueueRefs(b.subs, MatchIds(b.router, s));
    var m :| m in GroupIds(b.subs, k) && MatchTokens(b.subs[m].pattern.tokens, s.tokens);
    var i, x, j :| i in GroupIds(b.subs, k) && j in GroupIds(b.subs, k) && Rival(b, k, x) && i < x < j;
    RivalQueued(b, k, x);
    forall y | y in {i, x, j, m} ensures b.subs[y].pattern == b.subs[m].pattern && b.subs[y].key.Some? {
      KeySays(b, y);
      KeySays(b, m);
      SamePattern(b, y, m);
    }
    KeySays(b, x);
    QueueInOrder(b, s);
    var pi := PlaceOf(b, s, i);
    var px := PlaceOf(b, s, x);
    var pj := PlaceOf(b, s, j);
    var live := Patterns(b.subs);
    assert live[i] == live[x] == live[j];
    assert pi < px < pj;
    assert refs[pi].key == k && refs[pj].key == k && refs[px].key != k;
  }

  lemma {:induction false} RivalQueued(b: Broker, k: GroupKey, x: SubId)
    requires Inv(b) && Rival(b, k, x)
    ensures x in b.subs && b.subs[x].key.Some?
  {
    assert Holds(b, Subscriptions);
    assert SubOk(x, b.subs[x], b.keys);
  }

  /**
   In general a matching group is served once if and only if nobody subscribed to its pattern in another
   group between two of its live members.
   */
  lemma {:induction false} PublishServesOnceIff(b: Broker, c: Content, k: GroupKey)
    requires Inv(b) && ValidSubject(c.subject) && MatchingGroup(b, c, k)
    ensures GroupAttempts(PublishAttempts(b, c), b.subs, k) == 1 <==> !Interleaved(b, k)
  {
    PublishServesOnceIffTogether(b, c, k);
    if Interleaved(b, k) {
      RivalMeansSplit(b, c, k);
    } else if !Contiguous(QueueRefs(b.subs, MatchIds(b.router, c.subject)), k) {
      SplitMeansRival(b, c.subject, k);
    }
  }

  function OneSubscriber(p: SubjectPattern): Broker {
    Subscribe(EMPTY_BROKER, 1, p, Some("g"), 1, 1)
  }

  function TwoSubscribers(p: SubjectPattern): Broker {
    Subscribe(OneSubscriber(p), 2, p, Some("h"), 2, 2)
  }

  /** Three subscriptions to one pattern, in the groups g, h and g. */
  function ThreeSubscribers(p: SubjectPattern): Broker {
    Subscribe(TwoSubscribers(p), 3, p, Some("g"), 3, 3)
  }

  lemma {:induction false} ThreeSubscribersInv(p: SubjectPattern)
    requires ValidPattern(p)
    ensures Inv(ThreeSubscribers(p))
  {
    TwoSubscribersInv(p);
    TwoSubscribersAddrs(p);
    SubscribeKeepsInv(TwoSubscribers(p), 3, p, Some("g"), 3, 3);
  }

  lemma {:induction false} TwoSubscribersAddrs(p: SubjectPattern)
    ensures FreshAddr(OneSubscriber(p), 2) && FreshAddr(TwoSubscribers(p), 3)
  {
  }

  lemma {:induction false} TwoSubscribersInv(p: SubjectPattern)
    requires ValidPattern(p)
    ensures Inv(TwoSubscribers(p))
  {
    EmptyBrokerInv();
    SubscribeKeepsInv(EMPTY_BROKER, 1, p, Some("g"), 1, 1);
    TwoSubscribersAddrs(p);
    SubscribeKeepsInv(OneSubscriber(p), 2, p, Some("h"), 2, 2);
  }

  lemma {:induction false} TwoRuns(g: KeyRef, h: KeyRef)
    requires g.key != h.key
    ensures RunStarts([g, h, g], g.key) == 2
  {
    assert [g, h, g][..2] == [g, h] && [g, h][..1] == [g] && [g][..0] == [];
    assert RunStarts([g], g.key) == 1;
    assert RunStarts([g, h], g.key) == 1;
  }

  lemma {:induction false} AllQueued(subs: Subs, i: SubId, j: SubId, l: SubId)
    requires forall x :: x in [i, j, l] ==> x in subs && subs[x].key.Some?
    ensures QueueIds(subs, [i, j, l]) == [i, j, l]
  {
    assert [i, j, l][..2] == [i, j] && [i, j][..1] == [i] && [i][..0] == [];
    assert QueueIds(subs, [i]) == [i];
    assert QueueIds(subs, [i, j]) == [i, j];
  }

  /** Two group names on one pattern, subscribed in turn, get a group served twice by one publish. */
  lemma {:induction false} TwoNamesServeTwice(p: SubjectPattern, c: Content)
    requires ValidPattern(p) && !HasWildcard(p.tokens) && ValidSubject(c.subject) && c.subject.raw == p.raw
    ensures Inv(ThreeSubscribers(p))
    ensures GroupAttempts(PublishAttempts(ThreeSubscribers(p), c), ThreeSubscribers(p).subs, GroupKey(p.raw, "g")) == 2
  {
    ThreeSubscribersInv(p);
    PublishServesRuns(ThreeSubscribers(p), c, GroupKey(p.raw, "g"));
    ThreeSubscribersRefs(p, c.subject);
    TwoRuns(KeyRef(1, GroupKey(p.raw, "g")), KeyRef(2, GroupKey(p.raw, "h")));
  }

  lemma {:induction false} ThreeSubscribersRefs(p: SubjectPattern, s: Subject)
    requires !HasWildcard(p.tokens) && s.raw == p.raw
    ensures var b := ThreeSubscribers(p);
            var g, h := KeyRef(1, GroupKey(p.raw, "g")), KeyRef(2, GroupKey(p.raw, "h"));
            QueueRefs(b.subs, MatchIds(b.router, s)) == [g, h, g]
  {
    var b := ThreeSubscribers(p);
    assert MatchIds(b.router, s) == [1, 2, 3];
    AllQueued(b.subs, 1, 2, 3);
  }

  /** Such a pattern and subject exist. */
  lemma {:induction false} LiteralSubjectExists()
    ensures var p, s := SubjectPattern("a", [Literal("a")]), Subject("a", ["a"]);
            ValidPattern(p) && !HasWildcard(p.tokens) && ValidSubject(s) && s.raw == p.raw
  {
    assert "a"[1..] == "";
    assert Split("") == [""];
    assert ['a'] + "" == "a";
    assert Utf8Len("") == 0;
    assert Utf8Len("a") == 1;
    assert Texts([Literal("a")]) == ["a"];
  }

  lemma {:induction false} EmptyBrokerInv()
    ensures Inv(EMPTY_BROKER)
  {
    EmptyInv();
    EmptyOrdered();
    assert Patterns(EMPTY_BROKER.subs) == map[];
    Close(EMPTY_BROKER);
  }

  // ---- invariants across publishes ----

  lemma {:induction false} SelectKeepsInv(b: Broker, groups: Groups)
    requires Inv(b) && SameMembers(groups, b.groups)
    ensures Inv(b.(groups := groups))
  {
    Open(b);
    forall k ensures Indexes(Members(groups, k), GroupIds(b.subs, k)) {
      assert Indexes(Members(b.groups, k), GroupIds(b.subs, k));
    }
    Close(b.(groups := groups));
  }

  lemma {:induction false} SelectionKeepsInv(b: Broker, refs: seq<KeyRef>)
    requires Inv(b)
    ensures Inv(b.(groups := SelectAll(b.groups, refs).0))
  {
    SelectKeepsMembers(b.groups, refs);
    SelectKeepsInv(b, SelectAll(b.groups, refs).0);
  }

  lemma {:induction false} PublishKeepsInv(b: Broker, o: Oracle, out: Out, c: Content)
    requires Inv(b)
    ensures Inv(Publish(b, o, out, c).0)
  {
    SelectionKeepsInv(b, Collapse(QueueRefs(b.subs, MatchIds(b.router, c.subject))));
  }

  // ---- publishing by subject text ----

  /** `parse_subject`: the cache first, then the parser, remembering a success. */
  function ParseCached(b: Broker, text: string): (Broker, Result<Subject, CoreError>) {
    if text in b.cache then (b, Success(b.cache[text]))
    else
      var r := ParseSubject(text);
      if r.Success? then (b.(cache := b.cache[text := r.value]), r) else (b, r)
  }

  /** In every consistent broker the cache is invisible: it answers what the parser would. */
  lemma {:induction false} CacheIsTransparent(b: Broker, text: string)
    requires Inv(b)
    ensures ParseCached(b, text).1 == ParseSubject(text)
    ensures Inv(ParseCached(b, text).0)
    ensures ParseCached(b, text).0.(cache := b.cache) == b
    ensures text in ParseCached(b, text).0.cache <==> ParseSubject(text).Success?
  {
    Open(b);
    Close(ParseCached(b, text).0);
  }

  /** The identifiers `publish_with_str` visits: the exact list of the text as given, then the wildcards. */
  function StrIds(b: Broker, text: string, s: Subject): seq<SubId> {
    Listed(b.router.exact, text) + WildcardIds(b.router, s.tokens)
  }

  /** The subject to route, unless nobody can match or the text does not parse. */
  function RouteStr(b: Broker, text: string): (Broker, Option<Subject>) {
    if Listed(b.router.exact, text) == [] && !b.router.hasWildcards then (b, None)
    else
      var (b1, r) := ParseCached(b, text);
      (b1, if r.Failure? then None else Some(r.value))
  }

  /** `publish_with_str`. */
  function PublishStr(b: Broker, o: Oracle, out: Out, text: string,
                      payload: seq<byte>, reply: Option<Subject>, headers: Option<map<string, string>>): (Broker, Out)
  {
    var out1 := out.(published := out.published + 1);
    var (b1, s) := RouteStr(b, text);
    if s.None? then (b1, out1)
    else DeliverMatches(b1, o, out1, Content(s.value, payload, reply, headers), StrIds(b, text, s.value))
  }

  lemma {:induction false} PublishStrKeepsInv(
    b: Broker, o: Oracle, out: Out, text: string,
    payload: seq<byte>, reply: Option<Subject>, headers: Option<map<string, string>>)
    requires Inv(b)
    ensures Inv(PublishStr(b, o, out, text, payload, reply, headers).0)
  {
    hide Inv;
    hide SelectAll;
    hide Collapse;
    CacheIsTransparent(b, text);
    var (b1, s) := RouteStr(b, text);
    if s.Some? {
      SelectionKeepsInv(b1, Collapse(QueueRefs(b1.subs, StrIds(b, text, s.value))));
    }
  }

  /** A text that does not parse is delivered to nobody. */
  lemma {:induction false} UnparsedTextReachesNobody(b: Broker, o: Oracle, out: Out, text: string,
                                  payload: seq<byte>, reply: Option<Subject>, headers: Option<map<string, string>>)
    requires Inv(b) && ParseSubject(text).Failure?
    ensures PublishStr(b, o, out, text, payload, reply, headers) == (b, out.(published := out.published + 1))
  {
    CacheIsTransparent(b, text);
  }

  /** Nobody subscribes to exactly this text. */
  ghost predicate NobodyNames(b: Broker, text: string) {
    forall id :: id in b.subs ==> b.subs[id].pattern.raw != text
  }

  /** The literal list of a subject is empty exactly when nobody subscribes to its text. */
  lemma {:induction false} ListedIff(b: Broker, s: Subject)
    requires Inv(b) && ValidSubject(s)
    ensures Listed(b.router.exact, s.raw) == [] <==> NobodyNames(b, s.raw)
  {
    var live := Patterns(b.subs);
    assert Holds(b, Router);
    assert ListOk(b.router.exact, live, s.raw);
    forall id | id in b.subs && b.subs[id].pattern.raw == s.raw ensures IsExact(live, id, s.raw) {
      assert id in live && ValidPattern(live[id]);
      forall i | 0 <= i < |live[id].tokens| ensures live[id].tokens[i].Literal? {
        assert Texts(live[id].tokens)[i] == s.tokens[i] && ValidToken(s.tokens[i]);
      }
    }
    if NobodyNames(b, s.raw) {
      forall id ensures id !in Listed(b.router.exact, s.raw) {
        assert id in live ==> id in b.subs;
      }
      NoDupSize(Listed(b.router.exact, s.raw), {});
    } else {
      var id :| id in b.subs && b.subs[id].pattern.raw == s.raw;
      assert id in Listed(b.router.exact, s.raw);
    }
  }

  /**
   The text path visits what parsing and publishing would if and only if the text is already trimmed or
   nobody subscribes to the trimmed text.
   */
  lemma {:induction false} TextPathVisitsSameIds(b: Broker, text: string)
    requires Inv(b) && ParseSubject(text).Success?
    ensures var s := ParseSubject(text).value;
            StrIds(b, text, s) == MatchIds(b.router, s) <==> Trimmed(text) || NobodyNames(b, Trim(text))
  {
    var s := ParseSubject(text).value;
    ParsedSubjectIsValid(text);
    ListedIff(b, s);
    if !Trimmed(text) {
      UntrimmedIsUnlisted(b, text);
      var wild := WildcardIds(b.router, s.tokens);
      assert |StrIds(b, text, s)| == |wild|;
      assert |MatchIds(b.router, s)| == |Listed(b.router.exact, Trim(text))| + |wild|;
    }
  }

  lemma {:induction false} UntrimmedIsUnlisted(b: Broker, text: string)
    requires Inv(b) && !Trimmed(text)
    ensures Listed(b.router.exact, text) == []
  {
    var live := Patterns(b.subs);
    assert Holds(b, Router);
    assert ListOk(b.router.exact, live, text);
    forall id ensures !IsExact(live, id, text) {
      assert id in live ==> ValidPattern(live[id]);
    }
    NoDupSize(Listed(b.router.exact, text), {});
  }

  /** One literal subscription to `a`, outside any group. */
  function PlainSubscriber(): Broker {
    Subscribe(EMPTY_BROKER, 1, SubjectPattern("a", [Literal("a")]), None, 1, 1)
  }

  /** The text ` a` parses to the subject `a`, whose subscriber a publish reaches and the text path misses. */
  lemma {:induction false} UntrimmedTextMisses(o: Oracle, out: Out)
    ensures var b, s := PlainSubscriber(), Subject("a", ["a"]);
            var c := Content(s, [], None, None);
            && Inv(b) && ParseSubject(" a") == Success(s)
            && Got(PublishAttempts(b, c), 1) == [c]
            && PublishStr(b, o, out, " a", [], None, None).1 == out.(published := out.published + 1)
  {
    hide Inv;
    hide ParseSubject;
    hide PublishAttempts;
    hide PublishStr;
    hide Subscribe;
    PlainSubscriberIs();
    ParsesUntrimmed();
    PublishFansOut(PlainSubscriber(), Content(Subject("a", ["a"]), [], None, None), 1);
    PlainSubscriberMissed(o, out);
  }

  lemma {:induction false} PlainSubscriberIs()
    ensures var b := PlainSubscriber();
            && Inv(b) && 1 in b.subs && b.subs[1].key.None? && b.subs[1].pattern.tokens == [Literal("a")]
    ensures ValidSubject(Subject("a", ["a"])) && MatchTokens([Literal("a")], ["a"])
  {
    hide Inv;
    hide ValidPattern;
    LiteralSubjectExists();
    EmptyBrokerInv();
    SubscribeKeepsInv(EMPTY_BROKER, 1, SubjectPattern("a", [Literal("a")]), None, 1, 1);
  }

  lemma {:induction false} ParsesUntrimmed()
    ensures ParseSubject(" a") == Success(Subject("a", ["a"]))
  {
    LiteralSubjectExists();
    assert " a"[1..] == "a";
  }

  lemma {:induction false} PlainSubscriberMissed(o: Oracle, out: Out)
    ensures PublishStr(PlainSubscriber(), o, out, " a", [], None, None).1 == out.(published := out.published + 1)
  {
    hide Inv;
    LiteralSubjectExists();
    ParsesUntrimmed();
  }

  /** For a trimmed text that parses, publishing by text is parsing and publishing, up to the cache. */
  lemma {:induction false} TextPathIsPublish(b: Broker, o: Oracle, out: Out, text: string,
                          payload: seq<byte>, reply: Option<Subject>, headers: Option<map<string, string>>)
    requires Inv(b) && Trimmed(text) && ParseSubject(text).Success?
    ensures var c := Content(ParseSubject(text).value, payload, reply, headers);
            && PublishStr(b, o, out, text, payload, reply, headers).1 == Publish(b, o, out, c).1
            && PublishStr(b, o, out, text, payload, reply, headers).0.(cache := b.cache) == Publish(b, o, out, c).0
  {
    var s := ParseSubject(text).value;
    CacheIsTransparent(b, text);
    TextPathVisitsSameIds(b, text);
    assert QueueIds(b.subs, []) == [];
  }
}
