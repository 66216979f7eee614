/**
 The wildcard fast-path flag under concurrency. Insert, remove and lookup are split at their lock and
 atomic boundaries: an insert writes the trie and then raises the flag; a remove takes its entry out, looks
 whether the trie is empty, and if so lowers the flag; a lookup loads the flag and, if it is up, reads the
 trie. Threads interleave freely at these points.
 */
module FlagRace {
  import opened Seqs
  import opened Subjects
  import opened Tries
  import opened Routing

  type Tid = nat

  /** Where a thread is between two atomic steps. `Lowering` remembers who raised the flag since its look. */
  datatype Thread =
    | Idle
    | Raising(id: SubId)
    | Looking
    | Lowering(raisedSince: set<SubId>)
    | Reading(subject: Subject)
    | Answered(subject: Subject, ids: seq<SubId>)

  /** The counted trie, the patterns filed in it, and all identifiers ever inserted. */
  datatype State = State(trie: Trie, live: Live, flag: bool, threads: map<Tid, Thread>, used: set<SubId>)

  datatype Step =
    | WriteEntry(t: Tid, pattern: SubjectPattern, id: SubId)
    | RaiseFlag(t: Tid)
    | TakeEntry(t: Tid, pattern: SubjectPattern, id: SubId)
    | LookEmpty(t: Tid)
    | LowerFlag(t: Tid)
    | LoadFlag(t: Tid, subject: Subject)
    | ReadTrie(t: Tid)
    | Leave(t: Tid)

  const INITIAL: State := State(EMPTY_TRIE, map[], false, map[], {})

  function ThreadOf(s: State, t: Tid): Thread {
    if t in s.threads then s.threads[t] else Idle
  }

  /** A step is possible: the thread stands where the step starts, and identifiers are never reused. */
  ghost predicate Enabled(s: State, step: Step) {
    match step
    case WriteEntry(t, p, id) => ThreadOf(s, t).Idle? && id !in s.used && ValidPattern(p) && HasWildcard(p.tokens)
    case RaiseFlag(t) => ThreadOf(s, t).Raising?
    case TakeEntry(t, p, id) => ThreadOf(s, t).Idle? && id in s.used && ValidPattern(p) && HasWildcard(p.tokens)
    case LookEmpty(t) => ThreadOf(s, t).Looking?
    case LowerFlag(t) => ThreadOf(s, t).Lowering?
    case LoadFlag(t, subject) => ThreadOf(s, t).Idle? && ValidSubject(subject)
    case ReadTrie(t) => ThreadOf(s, t).Reading?
    case Leave(t) => ThreadOf(s, t).Answered?
  }

  /** Raising the flag for `id` is noticed by every thread that is about to lower it. */
  function Notice(threads: map<Tid, Thread>, id: SubId): map<Tid, Thread> {
    map t | t in threads ::
      if threads[t].Lowering? then Lowering(threads[t].raisedSince + {id}) else threads[t]
  }

  ghost function Next(s: State, step: Step): State
    requires Enabled(s, step)
  {
    match step
    case WriteEntry(t, p, id) =>
      s.(trie := InsertTrie(s.trie, Texts(p.tokens), id, HasMulti(p.tokens)), live := s.live[id := p],
         used := s.used + {id}, threads := s.threads[t := Raising(id)])
    case RaiseFlag(t) =>
      s.(flag := true, threads := Notice(s.threads[t := Idle], s.threads[t].id))
    case TakeEntry(t, p, id) =>
      s.(trie := RemoveTrie(s.trie, Texts(p.tokens), id, HasMulti(p.tokens)), live := RemoveLive(s.live, p, id),
         threads := s.threads[t := Looking])
    case LookEmpty(t) =>
      s.(threads := s.threads[t := if s.trie.count == 0 then Lowering({}) else Idle])
    case LowerFlag(t) =>
      s.(flag := false, threads := s.threads[t := Idle])
    case LoadFlag(t, subject) =>
      s.(threads := s.threads[t := if s.flag then Reading(subject) else Answered(subject, [])])
    case ReadTrie(t) =>
      var subject := s.threads[t].subject;
      s.(threads := s.threads[t := Answered(subject, MatchNode(s.trie.root, subject.tokens))])
    case Leave(t) =>
      s.(threads := s.threads[t := Idle])
  }

  ghost predicate Possible(steps: seq<Step>)
    decreases |steps|, 0
  {
    steps != [] ==>
      Possible(steps[..|steps| - 1]) && Enabled(After(steps[..|steps| - 1]), steps[|steps| - 1])
  }

  /** The state after a run. */
  ghost function After(steps: seq<Step>): State
    requires Possible(steps)
    decreases |steps|, 1
  {
    if steps == [] then INITIAL else Next(After(steps[..|steps| - 1]), steps[|steps| - 1])
  }

  /** Some insert has written `id` and not yet raised the flag. */
  ghost predicate Pending(s: State, id: SubId) {
    exists t :: t in s.threads && s.threads[t] == Raising(id)
  }

  /** The flag is never down while a finished insert's entry is in the trie. */
  ghost predicate Safe(s: State) {
    !s.flag ==> forall id :: id in s.live ==> Pending(s, id)
  }

  // ---- what every run keeps ----

  /** The trie files exactly the live patterns, and its counter counts them. */
  ghost predicate Filed(trie: Trie, live: Live) {
    EngineInv(Engine(map[], trie, trie.count != 0), live)
  }

  ghost predicate Sound(s: State) {
    && Filed(s.trie, s.live)
    && s.live.Keys <= s.used
    && ThreadsSound(s)
  }

  /** An entry in the trie that a lowering thread did not see was pending or raised since. */
  ghost predicate ThreadsSound(s: State) {
    && (forall t :: t in s.threads && s.threads[t].Raising? ==> s.threads[t].id in s.used)
    && (forall t, u ::
          t in s.threads && u in s.threads && s.threads[t].Raising? && s.threads[u] == s.threads[t] ==> t == u)
    && (forall t :: t in s.threads && s.threads[t].Lowering? ==> LoweringOk(s, s.threads[t].raisedSince))
  }

  ghost predicate LoweringOk(s: State, raisedSince: set<SubId>) {
    && raisedSince <= s.used
    && (forall id :: id in s.live ==> Pending(s, id) || id in raisedSince)
    && (forall id :: id in raisedSince ==> !Pending(s, id))
  }

  lemma {:induction false} InsertFiled(trie: Trie, live: Live, p: SubjectPattern, id: SubId)
    requires Filed(trie, live) && ValidPattern(p) && HasWildcard(p.tokens) && id !in live
    ensures Filed(InsertTrie(trie, Texts(p.tokens), id, HasMulti(p.tokens)), live[id := p])
  {
    hide EngineInv;
    InsertKeepsInv(Engine(map[], trie, trie.count != 0), live, p, id);
  }

  lemma {:induction false} RemoveFiled(trie: Trie, live: Live, p: SubjectPattern, id: SubId)
    requires Filed(trie, live) && ValidPattern(p) && HasWildcard(p.tokens)
    ensures Filed(RemoveTrie(trie, Texts(p.tokens), id, HasMulti(p.tokens)), RemoveLive(live, p, id))
  {
    hide EngineInv;
    RemoveKeepsInv(Engine(map[], trie, trie.count != 0), live, p, id);
  }

  /** The counter says whether anything is filed. */
  lemma {:induction false} CountSays(trie: Trie, live: Live)
    requires Filed(trie, live)
    ensures trie.count == 0 <==> live == map[]
    ensures forall id :: id in live ==> HasWildcard(live[id].tokens)
  {
    forall id | id in live ensures HasWildcard(live[id].tokens) {
      assert ListOk(map[], live, live[id].raw);
      assert id in Listed(map[], live[id].raw) <==> IsExact(live, id, live[id].raw);
    }
    assert WildIds(live) == live.Keys;
    if trie.count == 0 {
      assert live.Keys == {};
    }
  }

  ghost predicate PendingNext(s: State, step: Step, id: SubId)
    requires Enabled(s, step)
  {
    match step
    case WriteEntry(_, _, written) => Pending(s, id) || id == written
    case RaiseFlag(t) => Pending(s, id) && id != s.threads[t].id
    case _ => Pending(s, id)
  }

  lemma {:induction false} PendingAfter(s: State, step: Step, id: SubId)
    requires ThreadsSound(s) && Enabled(s, step)
    ensures Pending(Next(s, step), id) <==> PendingNext(s, step, id)
  {
    hide ValidPattern;
    hide ValidSubject;
    var s' := Next(s, step);
    if Pending(s, id) {
      var u :| u in s.threads && s.threads[u] == Raising(id);
      if u != step.t {
        assert s'.threads[u] == Raising(id);
      }
    }
    if Pending(s', id) {
      var u :| u in s'.threads && s'.threads[u] == Raising(id);
      if u != step.t {
        assert s.threads[u] == Raising(id);
      }
    }
    if step.WriteEntry? {
      assert s'.threads[step.t] == Raising(step.id);
    }
  }

  lemma {:induction false} LoweringAfter(s: State, step: Step, t: Tid)
    requires Sound(s) && Enabled(s, step)
    requires t in Next(s, step).threads && Next(s, step).threads[t].Lowering?
    ensures LoweringOk(Next(s, step), Next(s, step).threads[t].raisedSince)
  {
    hide Filed;
    hide ValidPattern;
    hide ValidSubject;
    hide HasWildcard;
    var s' := Next(s, step);
    forall id ensures Pending(s', id) <==> PendingNext(s, step, id) {
      PendingAfter(s, step, id);
    }
    if t != step.t {
      assert t in s.threads && s.threads[t].Lowering? && LoweringOk(s, s.threads[t].raisedSince);
    } else {
      CountSays(s.trie, s.live);
    }
  }

  lemma {:induction false} NextKeepsFiled(s: State, step: Step)
    requires Sound(s) && Enabled(s, step)
    ensures Filed(Next(s, step).trie, Next(s, step).live)
    ensures Next(s, step).live.Keys <= Next(s, step).used
  {
    hide Filed;
    hide ValidPattern;
    match step
    case WriteEntry(_, p, id) => InsertFiled(s.trie, s.live, p, id);
    case TakeEntry(_, p, id) => RemoveFiled(s.trie, s.live, p, id);
    case _ =>
  }

  lemma {:induction false} NextIsSound(s: State, step: Step)
    requires Sound(s) && Enabled(s, step)
    ensures Sound(Next(s, step))
  {
    hide Filed;
    hide ValidPattern;
    hide ValidSubject;
    NextKeepsFiled(s, step);
    var s' := Next(s, step);
    forall t | t in s'.threads && s'.threads[t].Lowering? ensures LoweringOk(s', s'.threads[t].raisedSince) {
      LoweringAfter(s, step, t);
    }
  }

  /**
   In every interleaving the trie and its counter hold exactly the live entries, and whatever a thread
   about to lower the flag did not see is pending or was raised since its look.
   */
  lemma {:induction false} RunsAreSound(steps: seq<Step>)
    requires Possible(steps)
    ensures Sound(After(steps))
  {
    if steps != [] {
      RunsAreSound(steps[..|steps| - 1]);
      NextIsSound(After(steps[..|steps| - 1]), steps[|steps| - 1]);
    } else {
      EmptyInv();
    }
  }

  /**
   In every reachable state, lowering the flag is safe exactly when no insert that raised it since the
   emptiness look still has its entry in the trie.
   */
  lemma {:induction false} LoweringIsSafeIff(steps: seq<Step>, t: Tid)
    requires Possible(steps) && Enabled(After(steps), LowerFlag(t))
    ensures Safe(Next(After(steps), LowerFlag(t))) <==>
            After(steps).threads[t].raisedSince * After(steps).live.Keys == {}
  {
    hide Filed;
    var s := After(steps);
    RunsAreSound(steps);
    assert LoweringOk(s, s.threads[t].raisedSince);
    var s', raised := Next(s, LowerFlag(t)), s.threads[t].raisedSince;
    forall id ensures Pending(s', id) <==> Pending(s, id) {
      PendingAfter(s, LowerFlag(t), id);
    }
    if raised * s.live.Keys != {} {
      var id :| id in raised * s.live.Keys;
      assert !Pending(s', id) && id in s'.live;
    } else {
      forall id | id in s'.live ensures Pending(s', id) {
        assert id in raised ==> id in raised * s.live.Keys;
      }
    }
  }

  // ---- the runs in which the flag is right ----

  /** Whenever a thread lowers the flag, no insert that raised it since the look still has its entry. */
  ghost predicate CleanLowering(steps: seq<Step>)
    requires Possible(steps)
  {
    steps != [] ==>
      var before, last := steps[..|steps| - 1], steps[|steps| - 1];
      CleanLowering(before)
      && (last.LowerFlag? ==> After(before).threads[last.t].raisedSince * After(before).live.Keys == {})
  }

  /** The flag is right after every step of the run. */
  ghost predicate AlwaysSafe(steps: seq<Step>)
    requires Possible(steps)
  {
    Safe(After(steps)) && (steps != [] ==> AlwaysSafe(steps[..|steps| - 1]))
  }

  lemma {:induction false} SafeStays(s: State, step: Step)
    requires Sound(s) && Safe(s) && Enabled(s, step) && !step.LowerFlag?
    ensures Safe(Next(s, step))
  {
    hide Filed;
    hide ValidPattern;
    hide ValidSubject;
    var s' := Next(s, step);
    if !s'.flag {
      forall id | id in s'.live ensures Pending(s', id) {
        PendingAfter(s, step, id);
      }
    }
  }

  /** The flag is right throughout a run if and only if every lowering in it is clean. */
  lemma {:induction false} AlwaysSafeIff(steps: seq<Step>)
    requires Possible(steps)
    ensures AlwaysSafe(steps) <==> CleanLowering(steps)
  {
    hide Safe;
    hide Sound;
    hide Enabled;
    hide Next;
    if steps == [] {
      InitialIsSafe();
    } else {
      var before, last := steps[..|steps| - 1], steps[|steps| - 1];
      AlwaysSafeIff(before);
      RunsAreSound(before);
      if last.LowerFlag? {
        LoweringIsSafeIff(before, last.t);
      } else if AlwaysSafe(before) {
        SafeStays(After(before), last);
      }
    }
  }

  lemma {:induction false} InitialIsSafe()
    ensures Safe(INITIAL)
  {
  }

  /** No insert raises the flag between a remover's successful look and its lowering of the flag. */
  ghost predicate NoRaiseWhileLowering(steps: seq<Step>)
    requires Possible(steps)
  {
    steps != [] ==>
      var before, last := steps[..|steps| - 1], steps[|steps| - 1];
      NoRaiseWhileLowering(before)
      && (last.RaiseFlag? ==> forall t :: t in After(before).threads ==> !After(before).threads[t].Lowering?)
  }

  ghost predicate NothingRaised(s: State) {
    forall t :: t in s.threads && s.threads[t].Lowering? ==> s.threads[t].raisedSince == {}
  }

  lemma {:induction false} SafeAfter(s: State, step: Step)
    requires Sound(s) && Safe(s) && NothingRaised(s) && Enabled(s, step)
    requires step.RaiseFlag? ==> forall t :: t in s.threads ==> !s.threads[t].Lowering?
    ensures Safe(Next(s, step)) && NothingRaised(Next(s, step))
  {
    hide Filed;
    hide ValidPattern;
    hide ValidSubject;
    var s' := Next(s, step);
    if !s'.flag {
      forall id | id in s'.live ensures Pending(s', id) {
        PendingAfter(s, step, id);
        if step.LowerFlag? {
          assert LoweringOk(s, s.threads[step.t].raisedSince);
        }
      }
    }
  }

  /**
   In every interleaving in which no insert raises the flag between a remover's successful look and its
   lowering, a lowered flag means that every trie entry belongs to an insert still about to raise it.
   */
  lemma {:induction false} FlagIsConservative(steps: seq<Step>)
    requires Possible(steps) && NoRaiseWhileLowering(steps)
    ensures Safe(After(steps)) && NothingRaised(After(steps))
  {
    if steps != [] {
      var before := steps[..|steps| - 1];
      FlagIsConservative(before);
      RunsAreSound(before);
      SafeAfter(After(before), steps[|steps| - 1]);
    }
  }

  // ---- what a lookup answers ----

  ghost predicate Matching(s: State, subject: Subject, id: SubId) {
    id in s.live && MatchTokens(s.live[id].tokens, subject.tokens)
  }

  /** Nothing but live matches, each once, and every live match whose insert has finished. */
  ghost predicate GoodAnswer(s: State, subject: Subject, ids: seq<SubId>) {
    && NoDup(ids)
    && (forall id :: id in ids ==> Matching(s, subject, id))
    && (forall id :: Matching(s, subject, id) && !Pending(s, id) ==> id in ids)
  }

  lemma {:induction false} TrieReadIsExact(s: State, subject: Subject)
    requires Filed(s.trie, s.live)
    ensures NoDup(MatchNode(s.trie.root, subject.tokens))
    ensures forall id :: id in MatchNode(s.trie.root, subject.tokens) <==> Matching(s, subject, id)
  {
    TrieMatchExact(s.trie.root, s.live, subject);
    CountSays(s.trie, s.live);
  }

  /** The step by which a lookup of thread `t` gets its answer. */
  ghost predicate Answers(s: State, step: Step) {
    step.ReadTrie? || (step.LoadFlag? && !s.flag)
  }

  /**
   As long as every lowering is clean, every lookup in every interleaving answers well, judged at the moment
   it gets its answer: it misses only subscriptions whose insert has not finished.
   */
  lemma {:induction false} LookupsAreComplete(steps: seq<Step>, step: Step)
    requires Possible(steps) && CleanLowering(steps)
    requires Enabled(After(steps), step) && Answers(After(steps), step)
    ensures var t := Next(After(steps), step).threads[step.t];
            t.Answered? && GoodAnswer(After(steps), t.subject, t.ids)
  {
    hide Filed;
    var s := After(steps);
    RunsAreSound(steps);
    AlwaysSafeIff(steps);
    if step.ReadTrie? {
      TrieReadIsExact(s, s.threads[step.t].subject);
    }
  }

  /**
   After a lowering that is not clean, some live subscription whose insert has finished is missed by every
   lookup that starts next with a subject it matches.
   */
  lemma {:induction false} UncleanLoweringMisses(steps: seq<Step>, t: Tid) returns (id: SubId)
    requires Possible(steps) && Enabled(After(steps), LowerFlag(t))
    requires After(steps).threads[t].raisedSince * After(steps).live.Keys != {}
    ensures var s := Next(After(steps), LowerFlag(t));
            && id in s.live && !Pending(s, id)
            && forall u, subject :: Enabled(s, LoadFlag(u, subject)) && Matching(s, subject, id) ==>
                 Next(s, LoadFlag(u, subject)).threads[u] == Answered(subject, []) && !GoodAnswer(s, subject, [])
  {
    hide Filed;
    hide ValidSubject;
    hide After;
    hide Possible;
    hide MatchTokens;
    LoweringIsSafeIff(steps, t);
    var s := Next(After(steps), LowerFlag(t));
    id :| id in s.live && !Pending(s, id);
  }

  /**
   In every reachable state with the flag down a lookup misses every live match, though the trie would have
   found it; so it answers well if and only if the inserts of all live matches are still pending.
   */
  lemma {:induction false} LoweredFlagAnswersIff(steps: seq<Step>, t: Tid, subject: Subject)
    requires Possible(steps) && !After(steps).flag && Enabled(After(steps), LoadFlag(t, subject))
    ensures Next(After(steps), LoadFlag(t, subject)).threads[t] == Answered(subject, [])
    ensures forall id :: Matching(After(steps), subject, id) ==>
              && id in MatchNode(After(steps).trie.root, subject.tokens)
              && id !in MatchIds(Engine(map[], After(steps).trie, After(steps).flag), subject)
    ensures GoodAnswer(After(steps), subject, []) <==>
            forall id :: Matching(After(steps), subject, id) ==> Pending(After(steps), id)
  {
    hide ValidSubject;
    hide After;
    hide Possible;
    hide Filed;
    var s := After(steps);
    RunsAreSound(steps);
    TrieReadIsExact(s, subject);
    if forall id :: Matching(s, subject, id) ==> Pending(s, id) {
      assert NoDup<SubId>([]);
    }
  }

  // ---- the run that goes wrong ----

  const ANY: SubjectPattern := SubjectPattern(">", [MultiWildcard])
  const LETTER: Subject := Subject("a", ["a"])

  /** The trie with the pattern `>` filed under `id`. */
  function Holding(id: SubId): Trie {
    Trie(TrieNode(map[], [id], []), 1)
  }

  /** Thread 1 drops the last wildcard subscription while thread 2 adds another; then thread 3 looks up `a`. */
  const RACE: seq<Step> := [
    WriteEntry(1, ANY, 10), RaiseFlag(1), TakeEntry(1, ANY, 10), LookEmpty(1),
    WriteEntry(2, ANY, 20), RaiseFlag(2), LowerFlag(1), LoadFlag(3, LETTER)]

  const RACE_STATES: seq<State> := [
    INITIAL,
    State(Holding(10), map[10 := ANY], false, map[1 := Raising(10)], {10}),
    State(Holding(10), map[10 := ANY], true, map[1 := Idle], {10}),
    State(EMPTY_TRIE, map[], true, map[1 := Looking], {10}),
    State(EMPTY_TRIE, map[], true, map[1 := Lowering({})], {10}),
    State(Holding(20), map[20 := ANY], true, map[1 := Lowering({}), 2 := Raising(20)], {10, 20}),
    State(Holding(20), map[20 := ANY], true, map[1 := Lowering({20}), 2 := Idle], {10, 20}),
    State(Holding(20), map[20 := ANY], false, map[1 := Idle, 2 := Idle], {10, 20}),
    State(Holding(20), map[20 := ANY], false, map[1 := Idle, 2 := Idle, 3 := Answered(LETTER, [])], {10, 20})]

  lemma {:induction false} RaceTexts()
    ensures ValidPattern(ANY) && HasWildcard(ANY.tokens) && ValidSubject(LETTER)
    ensures Texts(ANY.tokens) == [">"] && HasMulti(ANY.tokens)
  {
    OneTokenPattern(">");
    SplitFirst("a", "");
    Utf8Bound("a");
    assert LETTER.tokens[0] == "a" && 'a' in "a";
  }

  lemma {:induction false} RaceTrie(id: SubId)
    ensures InsertTrie(EMPTY_TRIE, [">"], id, true) == Holding(id)
    ensures RemoveTrie(Holding(id), [">"], id, true) == EMPTY_TRIE
  {
    assert [] + [id] == [id];
    assert Without([id], id) == [] by {
      assert [id][1..] == [];
    }
  }

  lemma {:induction false} RaceStep(n: nat)
    requires n < 8
    ensures Enabled(RACE_STATES[n], RACE[n]) && Next(RACE_STATES[n], RACE[n]) == RACE_STATES[n + 1]
  {
    hide ValidPattern;
    hide ValidSubject;
    hide InsertTrie;
    hide RemoveTrie;
    RaceTexts();
    RaceTrie(10);
    RaceTrie(20);
    if n == 1 {
      assert Next(RACE_STATES[1], RACE[1]).threads == map[1 := Idle];
    } else if n == 5 {
      assert {} + {20} == {20};
      assert Notice(map[1 := Lowering({}), 2 := Idle], 20) == map[1 := Lowering({20}), 2 := Idle];
      assert RACE_STATES[5].threads[2 := Idle] == map[1 := Lowering({}), 2 := Idle];
    }
  }

  lemma {:induction false} RacePrefix(n: nat)
    requires n <= 8
    ensures Possible(RACE[..n]) && After(RACE[..n]) == RACE_STATES[n]
  {
    hide Enabled;
    hide Next;
    if n > 0 {
      assert RACE[..n][..n - 1] == RACE[..n - 1] && RACE[..n][n - 1] == RACE[n - 1];
      RacePrefix(n - 1);
      RaceStep(n - 1);
    }
  }

  /**
   The excluded run is possible. It ends with the flag down over a finished wildcard subscription that
   matches the subject just looked up, that the trie would have found, and that the lookup missed.
   */
  lemma {:induction false} RaceMissesSubscription()
    ensures Possible(RACE) && !NoRaiseWhileLowering(RACE)
    ensures var s := After(RACE);
            && !Safe(s) && Matching(s, LETTER, 20) && !Pending(s, 20)
            && 20 in MatchNode(s.trie.root, LETTER.tokens)
            && s.threads[3] == Answered(LETTER, [])
            && 20 !in MatchIds(Engine(map[], s.trie, s.flag), LETTER)
  {
    hide Enabled;
    hide Next;
    assert RACE[..8] == RACE;
    RacePrefix(8);
    var s := After(RACE);
    assert s == RACE_STATES[8];
    assert MatchTokens(ANY.tokens, LETTER.tokens);
    assert 20 in s.live && !Pending(s, 20);
    if NoRaiseWhileLowering(RACE) {
      FlagIsConservative(RACE);
    }
  }
}
