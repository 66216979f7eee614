/**
 The routing engine: an exact-match map, the wildcard trie and a flag that lets exact-only
 traffic skip the trie. The three together are one index over the live subscriptions.
 */
module Routing {
  import opened Wrappers
  import opened Subjects
  import opened Seqs
  import opened Tries

  datatype Engine = Engine(exact: map<string, seq<SubId>>, trie: Trie, hasWildcards: bool)

  const EMPTY_ENGINE: Engine := Engine(map[], EMPTY_TRIE, false)

  function Listed(exact: map<string, seq<SubId>>, raw: string): seq<SubId> {
    if raw in exact then exact[raw] else []
  }

  function InsertEngine(e: Engine, p: SubjectPattern, id: SubId): Engine {
    if !HasWildcard(p.tokens) then
      e.(exact := e.exact[p.raw := Listed(e.exact, p.raw) + [id]])
    else
      e.(trie := InsertTrie(e.trie, Texts(p.tokens), id, HasMulti(p.tokens)), hasWildcards := true)
  }

  function RemoveEngine(e: Engine, p: SubjectPattern, id: SubId): Engine {
    if !HasWildcard(p.tokens) then
      if p.raw in e.exact then e.(exact := e.exact[p.raw := Without(e.exact[p.raw], id)]) else e
    else
      var trie := RemoveTrie(e.trie, Texts(p.tokens), id, HasMulti(p.tokens));
      e.(trie := trie, hasWildcards := if trie.count == 0 then false else e.hasWildcards)
  }

  /** Wildcard matches, skipped when the flag is down. */
  function WildcardIds(e: Engine, tokens: seq<string>): seq<SubId> {
    if e.hasWildcards then MatchNode(e.trie.root, tokens) else []
  }

  /** `match_subject`: the exact list first, then the trie. */
  function MatchIds(e: Engine, s: Subject): seq<SubId> {
    Listed(e.exact, s.raw) + WildcardIds(e, s.tokens)
  }

  // ---- what the index means ----

  type Live = map<SubId, SubjectPattern>

  function SlotOf(p: SubjectPattern): Slot {
    SlotFor(Texts(p.tokens), HasMulti(p.tokens))
  }

  ghost predicate IsExact(live: Live, id: SubId, raw: string) {
    id in live && !HasWildcard(live[id].tokens) && live[id].raw == raw
  }

  ghost predicate InSlot(live: Live, id: SubId, slot: Slot) {
    id in live && HasWildcard(live[id].tokens) && SlotOf(live[id]) == slot
  }

  ghost function WildIds(live: Live): set<SubId> {
    set id | id in live && HasWildcard(live[id].tokens)
  }

  ghost predicate ListOk(exact: map<string, seq<SubId>>, live: Live, raw: string) {
    && NoDup(Listed(exact, raw))
    && forall id :: id in Listed(exact, raw) <==> IsExact(live, id, raw)
  }

  ghost predicate SlotOk(root: TrieNode, live: Live, slot: Slot) {
    && NoDup(At(root, slot))
    && forall id :: id in At(root, slot) <==> InSlot(live, id, slot)
  }

  ghost predicate ExactInv(exact: map<string, seq<SubId>>, live: Live) {
    forall raw :: ListOk(exact, live, raw)
  }

  ghost predicate TrieInv(root: TrieNode, live: Live) {
    forall slot :: SlotOk(root, live, slot)
  }

  ghost predicate AllValid(live: Live) {
    forall id :: id in live ==> ValidPattern(live[id])
  }

  /** The index holds exactly the live pairs, each once, and the flag says whether the trie holds any. */
  ghost predicate EngineInv(e: Engine, live: Live) {
    && AllValid(live)
    && ExactInv(e.exact, live)
    && TrieInv(e.trie.root, live)
    && e.trie.count == |WildIds(live)|
    && e.hasWildcards == (e.trie.count != 0)
  }

  lemma {:induction false} EmptyInv()
    ensures EngineInv(EMPTY_ENGINE, map[])
  {
    forall slot ensures SlotOk(EMPTY_NODE, map[], slot) {
      EmptyAt(slot);
    }
    assert WildIds(map[]) == {};
  }

  lemma {:induction false} SlotAfterInsert(root: TrieNode, live: Live, p: SubjectPattern, id: SubId, slot: Slot)
    requires SlotOk(root, live, slot) && HasWildcard(p.tokens) && id !in live
    ensures SlotOk(InsertNode(root, Texts(p.tokens), id, HasMulti(p.tokens)), live[id := p], slot)
  {
    InsertAt(root, Texts(p.tokens), id, HasMulti(p.tokens), slot);
    NoDupAppend(At(root, slot), id);
  }

  lemma {:induction false} ListAfterInsert(e: Engine, live: Live, p: SubjectPattern, id: SubId, raw: string)
    requires ListOk(e.exact, live, raw) && !HasWildcard(p.tokens) && id !in live
    ensures ListOk(InsertEngine(e, p, id).exact, live[id := p], raw)
  {
    NoDupAppend(Listed(e.exact, raw), id);
  }

  lemma {:induction false} InsertKeepsLists(e: Engine, live: Live, p: SubjectPattern, id: SubId)
    requires ExactInv(e.exact, live) && id !in live
    ensures ExactInv(InsertEngine(e, p, id).exact, live[id := p])
  {
    var exact', live' := InsertEngine(e, p, id).exact, live[id := p];
    forall raw ensures ListOk(exact', live', raw) {
      assert ListOk(e.exact, live, raw);
      if !HasWildcard(p.tokens) {
        ListAfterInsert(e, live, p, id, raw);
      }
    }
  }

  lemma {:induction false} InsertKeepsSlots(e: Engine, live: Live, p: SubjectPattern, id: SubId)
    requires TrieInv(e.trie.root, live) && id !in live
    ensures TrieInv(InsertEngine(e, p, id).trie.root, live[id := p])
  {
    var root', live' := InsertEngine(e, p, id).trie.root, live[id := p];
    forall slot ensures SlotOk(root', live', slot) {
      assert SlotOk(e.trie.root, live, slot);
      if HasWildcard(p.tokens) {
        SlotAfterInsert(e.trie.root, live, p, id, slot);
      }
    }
  }

  lemma {:induction false} InsertKeepsInv(e: Engine, live: Live, p: SubjectPattern, id: SubId)
    requires EngineInv(e, live) && ValidPattern(p) && id !in live
    ensures EngineInv(InsertEngine(e, p, id), live[id := p])
  {
    var live' := live[id := p];
    InsertKeepsLists(e, live, p, id);
    InsertKeepsSlots(e, live, p, id);
    WildAfterInsert(live, p, id);
    forall i | i in live' ensures ValidPattern(live'[i]) {
      assert i == id || live'[i] == live[i];
    }
  }

  lemma {:induction false} WildAfterInsert(live: Live, p: SubjectPattern, id: SubId)
    requires id !in live
    ensures |WildIds(live[id := p])| == |WildIds(live)| + if HasWildcard(p.tokens) then 1 else 0
  {
    assert WildIds(live[id := p]) == WildIds(live) + if HasWildcard(p.tokens) then {id} else {};
  }

  /** The live pairs after a remove: a remove under another pattern touches nothing. */
  function RemoveLive(live: Live, p: SubjectPattern, id: SubId): Live {
    if id in live && live[id] == p then live - {id} else live
  }

  lemma {:induction false} SlotOfInjective(p: SubjectPattern, q: SubjectPattern)
    requires ValidPattern(p) && ValidPattern(q) && SlotOf(p) == SlotOf(q)
    ensures p == q
  {
    var a, b := Texts(p.tokens), Texts(q.tokens);
    if HasMulti(p.tokens) && a != [] {
      assert p.tokens[|a| - 1].MultiWildcard? && q.tokens[|b| - 1].MultiWildcard?;
      assert a == a[..|a| - 1] + [">"] && b == b[..|b| - 1] + [">"];
    }
    PatternTextInjective(p, q);
  }

  lemma {:induction false} SlotAfterRemove(
    root: TrieNode, root': TrieNode, live: Live, p: SubjectPattern, id: SubId, slot: Slot)
    requires SlotOk(root, live, slot) && HasWildcard(p.tokens)
    requires InSlot(live, id, SlotOf(p)) ==> live[id] == p
    requires At(root', slot) == if slot == SlotOf(p) then Without(At(root, slot), id) else At(root, slot)
    ensures SlotOk(root', RemoveLive(live, p, id), slot)
  {
    WithoutNoDup(At(root, slot), id);
  }

  lemma {:induction false} ListAfterRemove(e: Engine, live: Live, p: SubjectPattern, id: SubId, raw: string)
    requires ListOk(e.exact, live, raw) && !HasWildcard(p.tokens)
    requires IsExact(live, id, p.raw) ==> live[id] == p
    ensures ListOk(RemoveEngine(e, p, id).exact, RemoveLive(live, p, id), raw)
  {
    WithoutNoDup(Listed(e.exact, raw), id);
  }

  lemma {:induction false} RemoveKeepsInv(e: Engine, live: Live, p: SubjectPattern, id: SubId)
    requires EngineInv(e, live) && ValidPattern(p)
    ensures EngineInv(RemoveEngine(e, p, id), RemoveLive(live, p, id))
  {
    if HasWildcard(p.tokens) {
      RemoveWildcard(e, live, p, id);
    } else {
      RemoveExact(e, live, p, id);
    }
  }

  lemma {:induction false} RemoveExact(e: Engine, live: Live, p: SubjectPattern, id: SubId)
    requires EngineInv(e, live) && ValidPattern(p) && !HasWildcard(p.tokens)
    ensures EngineInv(RemoveEngine(e, p, id), RemoveLive(live, p, id))
  {
    var live' := RemoveLive(live, p, id);
    if IsExact(live, id, p.raw) {
      PatternTextInjective(live[id], p);
    }
    assert WildIds(live') == WildIds(live);
    forall slot ensures SlotOk(e.trie.root, live', slot) {
      assert SlotOk(e.trie.root, live, slot);
    }
    forall raw ensures ListOk(RemoveEngine(e, p, id).exact, live', raw) {
      assert ListOk(e.exact, live, raw);
      ListAfterRemove(e, live, p, id, raw);
    }
  }

  lemma {:induction false} RemoveWildcard(e: Engine, live: Live, p: SubjectPattern, id: SubId)
    requires EngineInv(e, live) && ValidPattern(p) && HasWildcard(p.tokens)
    ensures EngineInv(RemoveEngine(e, p, id), RemoveLive(live, p, id))
  {
    var live' := RemoveLive(live, p, id);
    var root := e.trie.root;
    var root' := RemoveEngine(e, p, id).trie.root;
    if InSlot(live, id, SlotOf(p)) {
      SlotOfInjective(live[id], p);
    }
    forall raw ensures ListOk(e.exact, live', raw) {
      assert ListOk(e.exact, live, raw);
    }
    forall slot ensures SlotOk(root', live', slot) {
      assert SlotOk(root, live, slot);
      RemoveAt(root, Texts(p.tokens), id, HasMulti(p.tokens), slot);
      SlotAfterRemove(root, root', live, p, id, slot);
    }
    CountAfterRemove(e, live, p, id);
  }

  lemma {:induction false} CountAfterRemove(e: Engine, live: Live, p: SubjectPattern, id: SubId)
    requires SlotOk(e.trie.root, live, SlotOf(p)) && e.trie.count == |WildIds(live)| && HasWildcard(p.tokens)
    requires InSlot(live, id, SlotOf(p)) ==> live[id] == p
    ensures RemoveEngine(e, p, id).trie.count == |WildIds(RemoveLive(live, p, id))|
  {
    var home := SlotOf(p);
    RemoveAt(e.trie.root, Texts(p.tokens), id, HasMulti(p.tokens), home);
    if InSlot(live, id, home) {
      WithoutNoDup(At(e.trie.root, home), id);
      assert id in WildIds(live);
      assert WildIds(RemoveLive(live, p, id)) == WildIds(live) - {id};
    } else {
      WithoutAbsent(At(e.trie.root, home), id);
      assert RemoveLive(live, p, id) == live;
    }
  }

  // ---- matching is a scan of the live patterns ----

  lemma {:induction false} SlotMatchesPattern(p: SubjectPattern, s: Subject)
    requires ValidPattern(p) && HasWildcard(p.tokens)
    ensures SlotMatches(SlotOf(p), s.tokens) <==> MatchTokens(p.tokens, s.tokens)
  {
    MatchTokensDenotes(p.tokens, s.tokens);
    var path := SlotOf(p).path;
    var texts := Texts(p.tokens);
    if HasMulti(p.tokens) {
      assert p.tokens[|p.tokens| - 1].MultiWildcard?;
    }
    assert forall i :: 0 <= i < |path| ==> path[i] == texts[i];
    forall i | 0 <= i < |path| && i < |s.tokens|
      ensures (path[i] == "*" || path[i] == s.tokens[i]) <==> TokenMatches(p.tokens[i], s.tokens[i])
    {
      assert Classify(TokenText(p.tokens[i])) == p.tokens[i];
    }
  }

  lemma {:induction false} ExactMatchesPattern(p: SubjectPattern, s: Subject)
    requires ValidPattern(p) && !HasWildcard(p.tokens) && ValidSubject(s)
    ensures p.raw == s.raw <==> MatchTokens(p.tokens, s.tokens)
  {
    MatchTokensDenotes(p.tokens, s.tokens);
    SplitInjective(p.raw, s.raw);
    if Denotes(p.tokens, s.tokens) {
      forall i | 0 <= i < |p.tokens| ensures Texts(p.tokens)[i] == s.tokens[i] {
        assert TokenMatches(p.tokens[i], s.tokens[i]);
        assert p.tokens[i].Literal?;
      }
      assert Split(p.raw) == Split(s.raw);
    }
    if p.raw == s.raw {
      forall i | 0 <= i < |p.tokens| ensures TokenMatches(p.tokens[i], s.tokens[i]) {
        assert Texts(p.tokens)[i] == s.tokens[i] && p.tokens[i].Literal?;
      }
    }
  }

  lemma {:induction false} GatherMember(n: TrieNode, slots: seq<Slot>, id: SubId)
    ensures id in Gather(n, slots) <==> exists i :: 0 <= i < |slots| && id in At(n, slots[i])
  {
    if slots != [] {
      GatherMember(n, slots[1..], id);
      if i :| 0 <= i < |slots| && id in At(n, slots[i]) {
        if i > 0 {
          assert slots[1..][i - 1] == slots[i];
        }
      }
      if i :| 0 <= i < |slots[1..]| && id in At(n, slots[1..][i]) {
        assert slots[i + 1] == slots[1..][i];
      }
      if id in At(n, slots[0]) {
        assert id in At(n, slots[0]);
      }
    }
  }

  lemma {:induction false} GatherNoDup(root: TrieNode, live: Live, slots: seq<Slot>)
    requires TrieInv(root, live) && NoDup(slots)
    ensures NoDup(Gather(root, slots))
  {
    if slots != [] {
      GatherNoDup(root, live, slots[1..]);
      assert SlotOk(root, live, slots[0]);
      forall id | id in At(root, slots[0]) ensures id !in Gather(root, slots[1..]) {
        GatherMember(root, slots[1..], id);
        forall i | 0 <= i < |slots[1..]| ensures id !in At(root, slots[1..][i]) {
          assert SlotOk(root, live, slots[i + 1]) && slots[0] != slots[i + 1];
        }
      }
      NoDupConcat(At(root, slots[0]), Gather(root, slots[1..]));
    }
  }

  lemma {:induction false} TrieMatchExact(root: TrieNode, live: Live, s: Subject)
    requires TrieInv(root, live) && AllValid(live)
    ensures NoDup(MatchNode(root, s.tokens))
    ensures forall id :: id in MatchNode(root, s.tokens) <==>
                         id in WildIds(live) && MatchTokens(live[id].tokens, s.tokens)
  {
    var slots := MatchSlots(s.tokens);
    MatchGathers(root, s.tokens);
    MatchSlotsDistinct(s.tokens);
    GatherNoDup(root, live, slots);
    forall id
      ensures id in Gather(root, slots) <==> id in WildIds(live) && MatchTokens(live[id].tokens, s.tokens)
    {
      GatherMember(root, slots, id);
      if id in WildIds(live) {
        MatchSlotsExact(s.tokens, SlotOf(live[id]));
        SlotMatchesPattern(live[id], s);
        assert SlotOk(root, live, SlotOf(live[id]));
      }
      if i :| 0 <= i < |slots| && id in At(root, slots[i]) {
        assert SlotOk(root, live, slots[i]);
      }
    }
  }

  /** The index answers a lookup with exactly the live identifiers whose pattern matches, each once. */
  lemma {:induction false} MatchIdsExact(e: Engine, live: Live, s: Subject)
    requires EngineInv(e, live) && ValidSubject(s)
    ensures NoDup(MatchIds(e, s))
    ensures forall id :: id in MatchIds(e, s) <==> id in live && MatchTokens(live[id].tokens, s.tokens)
  {
    TrieMatchExact(e.trie.root, live, s);
    var listed := Listed(e.exact, s.raw);
    var wild := WildcardIds(e, s.tokens);
    if !e.hasWildcards {
      assert WildIds(live) == {};
    }
    forall id ensures id in listed <==> id in live && id !in WildIds(live) && MatchTokens(live[id].tokens, s.tokens) {
      assert ListOk(e.exact, live, s.raw);
      if id in live && !HasWildcard(live[id].tokens) {
        ExactMatchesPattern(live[id], s);
      }
    }
    assert ListOk(e.exact, live, s.raw);
    NoDupConcat(listed, wild);
  }

  lemma {:induction false} MatchIdsDenote(e: Engine, live: Live, s: Subject)
    requires EngineInv(e, live) && ValidSubject(s)
    ensures NoDup(MatchIds(e, s))
    ensures forall id :: id in MatchIds(e, s) <==> id in live && Denotes(live[id].tokens, s.tokens)
  {
    MatchIdsExact(e, live, s);
    forall id | id in live ensures MatchTokens(live[id].tokens, s.tokens) <==> Denotes(live[id].tokens, s.tokens) {
      MatchTokensDenotes(live[id].tokens, s.tokens);
    }
  }

  // ---- order: the matches of one pattern stand together ----

  ghost predicate Together(ids: seq<SubId>, live: Live) {
    forall i, j, k ::
      (0 <= i < j < k < |ids| && ids[i] in live && ids[j] in live && ids[k] in live && live[ids[i]] == live[ids[k]]) ==>
      live[ids[j]] == live[ids[i]]
  }

  lemma {:induction false} GatherTogether(root: TrieNode, live: Live, slots: seq<Slot>)
    requires TrieInv(root, live) && AllValid(live) && NoDup(slots)
    ensures Together(Gather(root, slots), live)
  {
    if slots != [] {
      GatherTogether(root, live, slots[1..]);
      var first, rest := At(root, slots[0]), Gather(root, slots[1..]);
      assert SlotOk(root, live, slots[0]);
      forall b | b in rest ensures b in live && SlotOf(live[b]) != slots[0] {
        GatherMember(root, slots[1..], b);
        var i :| 0 <= i < |slots[1..]| && b in At(root, slots[1..][i]);
        assert SlotOk(root, live, slots[i + 1]) && slots[0] != slots[i + 1];
      }
      forall a, b | a in first && b in first ensures live[a] == live[b] {
        SlotOfInjective(live[a], live[b]);
      }
      TogetherConcat(first, rest, live);
    }
  }

  lemma {:induction false} TogetherConcat(first: seq<SubId>, rest: seq<SubId>, live: Live)
    requires forall a :: a in first || a in rest ==> a in live
    requires forall a, b :: a in first && b in rest ==> live[a] != live[b]
    requires forall a, b :: a in first && b in first ==> live[a] == live[b]
    requires Together(rest, live)
    ensures Together(first + rest, live)
  {
    var all := first + rest;
    forall i, j, k | 0 <= i < j < k < |all|
      ensures live[all[i]] == live[all[k]] ==> live[all[j]] == live[all[i]]
    {
      if k < |first| {
        assert all[i] in first && all[j] in first;
      } else if i < |first| {
        assert all[i] in first && all[k] == rest[k - |first|];
      } else {
        assert all[i] == rest[i - |first|] && all[j] == rest[j - |first|] && all[k] == rest[k - |first|];
      }
    }
  }

  lemma {:induction false} MatchIdsTogether(e: Engine, live: Live, s: Subject)
    requires EngineInv(e, live) && ValidSubject(s)
    ensures Together(MatchIds(e, s), live)
  {
    MatchIdsExact(e, live, s);
    var listed, wild := Listed(e.exact, s.raw), WildcardIds(e, s.tokens);
    MatchGathers(e.trie.root, s.tokens);
    MatchSlotsDistinct(s.tokens);
    GatherTogether(e.trie.root, live, MatchSlots(s.tokens));
    TrieMatchExact(e.trie.root, live, s);
    assert ListOk(e.exact, live, s.raw);
    forall a, b | a in listed && b in listed ensures live[a] == live[b] {
      PatternTextInjective(live[a], live[b]);
    }
    TogetherConcat(listed, wild, live);
  }

  // ---- order: the matches of one pattern come in the order of their identifiers ----

  /** Every list of the index is in the order its identifiers were handed out. */
  ghost predicate Ordered(e: Engine) {
    && (forall raw :: Ascending(Listed(e.exact, raw)))
    && (forall slot :: Ascending(At(e.trie.root, slot)))
  }

  ghost predicate InOrder(ids: seq<SubId>, live: Live) {
    forall i, j ::
      0 <= i < j < |ids| && ids[i] in live && ids[j] in live && live[ids[i]] == live[ids[j]] ==> ids[i] < ids[j]
  }

  lemma {:induction false} AscendingAppend(list: seq<SubId>, id: SubId)
    requires Ascending(list) && forall x :: x in list ==> x < id
    ensures Ascending(list + [id])
  {
    assert forall i :: 0 <= i < |list| ==> list[i] in list;
  }

  lemma {:induction false} EmptyOrdered()
    ensures Ordered(EMPTY_ENGINE)
  {
    forall slot ensures Ascending(At(EMPTY_NODE, slot)) {
      EmptyAt(slot);
    }
  }

  lemma {:induction false} InsertKeepsOrder(e: Engine, live: Live, p: SubjectPattern, id: SubId)
    requires EngineInv(e, live) && Ordered(e) && forall x :: x in live ==> x < id
    ensures Ordered(InsertEngine(e, p, id))
  {
    var e' := InsertEngine(e, p, id);
    forall raw ensures Ascending(Listed(e'.exact, raw)) {
      assert ListOk(e.exact, live, raw) && Ascending(Listed(e.exact, raw));
      AscendingAppend(Listed(e.exact, raw), id);
    }
    forall slot ensures Ascending(At(e'.trie.root, slot)) {
      assert SlotOk(e.trie.root, live, slot) && Ascending(At(e.trie.root, slot));
      AscendingAppend(At(e.trie.root, slot), id);
      InsertAt(e.trie.root, Texts(p.tokens), id, HasMulti(p.tokens), slot);
    }
  }

  lemma {:induction false} RemoveKeepsOrder(e: Engine, p: SubjectPattern, id: SubId)
    requires Ordered(e)
    ensures Ordered(RemoveEngine(e, p, id))
  {
    var e' := RemoveEngine(e, p, id);
    forall raw ensures Ascending(Listed(e'.exact, raw)) {
      WithoutAscending(Listed(e.exact, raw), id);
    }
    forall slot ensures Ascending(At(e'.trie.root, slot)) {
      WithoutAscending(At(e.trie.root, slot), id);
      RemoveAt(e.trie.root, Texts(p.tokens), id, HasMulti(p.tokens), slot);
    }
  }

  lemma {:induction false} InOrderConcat(first: seq<SubId>, rest: seq<SubId>, live: Live)
    requires forall a, b :: a in first && b in rest && a in live && b in live ==> live[a] != live[b]
    requires Ascending(first) && InOrder(rest, live)
    ensures InOrder(first + rest, live)
  {
    var all := first + rest;
    forall i, j | 0 <= i < j < |all|
      ensures all[i] in live && all[j] in live && live[all[i]] == live[all[j]] ==> all[i] < all[j]
    {
      if i < |first| <= j {
        assert all[i] in first && all[j] in rest;
      }
    }
  }

  lemma {:induction false} GatherInOrder(root: TrieNode, live: Live, slots: seq<Slot>)
    requires TrieInv(root, live) && NoDup(slots) && forall slot :: Ascending(At(root, slot))
    ensures InOrder(Gather(root, slots), live)
  {
    if slots != [] {
      GatherInOrder(root, live, slots[1..]);
      var first, rest := At(root, slots[0]), Gather(root, slots[1..]);
      assert SlotOk(root, live, slots[0]);
      forall b | b in rest ensures b in live && SlotOf(live[b]) != slots[0] {
        GatherMember(root, slots[1..], b);
        var i :| 0 <= i < |slots[1..]| && b in At(root, slots[1..][i]);
        assert SlotOk(root, live, slots[i + 1]) && slots[0] != slots[i + 1];
      }
      InOrderConcat(first, rest, live);
    }
  }

  /** A lookup lists the identifiers of one pattern in the order they were handed out. */
  lemma {:induction false} MatchIdsInOrder(e: Engine, live: Live, s: Subject)
    requires EngineInv(e, live) && Ordered(e)
    ensures InOrder(MatchIds(e, s), live)
  {
    var listed, wild := Listed(e.exact, s.raw), WildcardIds(e, s.tokens);
    MatchGathers(e.trie.root, s.tokens);
    MatchSlotsDistinct(s.tokens);
    GatherInOrder(e.trie.root, live, MatchSlots(s.tokens));
    TrieMatchExact(e.trie.root, live, s);
    assert ListOk(e.exact, live, s.raw);
    InOrderConcat(listed, wild, live);
  }

  // ---- runs ----

  datatype EngineOp = Insert(pattern: SubjectPattern, id: SubId) | Remove(pattern: SubjectPattern, id: SubId)

  function ApplyEngine(e: Engine, op: EngineOp): Engine {
    match op
    case Insert(p, id) => InsertEngine(e, p, id)
    case Remove(p, id) => RemoveEngine(e, p, id)
  }

  function ApplyLive(live: Live, op: EngineOp): Live {
    match op
    case Insert(p, id) => live[id := p]
    case Remove(p, id) => RemoveLive(live, p, id)
  }

  function RunEngine(ops: seq<EngineOp>): Engine {
    if ops == [] then EMPTY_ENGINE else ApplyEngine(RunEngine(ops[..|ops| - 1]), ops[|ops| - 1])
  }

  function RunLive(ops: seq<EngineOp>): Live {
    if ops == [] then map[] else ApplyLive(RunLive(ops[..|ops| - 1]), ops[|ops| - 1])
  }

  /** Patterns are parsed ones and an insert never reuses an identifier that is still live. */
  ghost predicate LegalRun(ops: seq<EngineOp>) {
    ops != [] ==>
      var last := ops[|ops| - 1];
      && LegalRun(ops[..|ops| - 1])
      && ValidPattern(last.pattern)
      && (last.Insert? ==> last.id !in RunLive(ops[..|ops| - 1]))
  }

  lemma {:induction false} RunKeepsInv(ops: seq<EngineOp>)
    requires LegalRun(ops)
    ensures EngineInv(RunEngine(ops), RunLive(ops))
  {
    if ops == [] {
      EmptyInv();
    } else {
      var before, last := ops[..|ops| - 1], ops[|ops| - 1];
      RunKeepsInv(before);
      match last {
        case Insert(p, id) => InsertKeepsInv(RunEngine(before), RunLive(before), p, id);
        case Remove(p, id) => RemoveKeepsInv(RunEngine(before), RunLive(before), p, id);
      }
    }
  }

  /**
   After every run of inserts and removes, a lookup returns, without duplicates, exactly the
   live identifiers whose pattern matches the subject.
   */
  lemma {:induction false} IndexAgreesWithScan(ops: seq<EngineOp>, s: Subject)
    requires LegalRun(ops) && ValidSubject(s)
    ensures NoDup(MatchIds(RunEngine(ops), s))
    ensures forall id :: id in MatchIds(RunEngine(ops), s) <==>
                         id in RunLive(ops) && MatchTokens(RunLive(ops)[id].tokens, s.tokens)
    ensures RunEngine(ops).hasWildcards <==> exists id :: id in WildIds(RunLive(ops))
  {
    RunKeepsInv(ops);
    MatchIdsExact(RunEngine(ops), RunLive(ops), s);
    var wild := WildIds(RunLive(ops));
    if RunEngine(ops).hasWildcards {
      assert wild != {};
    }
  }

  /** The flag is up exactly while a wildcard subscription is live. */
  lemma {:induction false} FlagSays(e: Engine, live: Live)
    requires EngineInv(e, live)
    ensures e.hasWildcards <==> exists id :: id in live && HasWildcard(live[id].tokens)
  {
    var wild := WildIds(live);
    if e.hasWildcards {
      var id :| id in wild;
      assert HasWildcard(live[id].tokens);
    } else {
      assert wild == {};
      forall id | id in live ensures !HasWildcard(live[id].tokens) {
        assert id !in wild;
      }
    }
  }

  // ---- the engine object ----

  lemma {:induction false} OneListed(exact: map<string, seq<SubId>>, live: Live, raw: string)
    requires ListOk(exact, live, raw)
    ensures |Listed(exact, raw)| == 1 <==>
            exists x :: IsExact(live, x, raw) && forall y :: IsExact(live, y, raw) ==> y == x
    ensures |Listed(exact, raw)| == 1 ==> IsExact(live, Listed(exact, raw)[0], raw)
  {
    hide IsExact;
    var list := Listed(exact, raw);
    if |list| == 1 {
      assert list[0] in list;
      assert forall y :: y in list ==> y == list[0];
    } else if |list| > 1 {
      assert list[0] in list && list[1] in list;
    }
  }

  class RoutingEngine {
    var exact: map<string, seq<SubId>>
    const trie: SubjectTrie
    var hasWildcards: bool

    ghost function View(): Engine
      reads this, trie
    {
      Engine(exact, trie.View(), hasWildcards)
    }

    constructor ()
      ensures View() == EMPTY_ENGINE
      ensures fresh(trie)
    {
      exact := map[];
      trie := new SubjectTrie();
      hasWildcards := false;
    }

    method Insert(pattern: SubjectPattern, id: SubId)
      modifies this, trie
      ensures View() == InsertEngine(old(View()), pattern, id)
    {
      if !HasWildcard(pattern.tokens) {
        var entry := if pattern.raw in exact then exact[pattern.raw] else [];
        exact := exact[pattern.raw := entry + [id]];
      } else {
        trie.Insert(Texts(pattern.tokens), id, HasMulti(pattern.tokens));
        hasWildcards := true;
      }
    }

    method Remove(pattern: SubjectPattern, id: SubId)
      modifies this, trie
      ensures View() == RemoveEngine(old(View()), pattern, id)
    {
      if !HasWildcard(pattern.tokens) {
        if pattern.raw in exact {
          exact := exact[pattern.raw := Without(exact[pattern.raw], id)];
        }
      } else {
        trie.Remove(Texts(pattern.tokens), id, HasMulti(pattern.tokens));
        var empty := trie.IsEmpty();
        if empty {
          hasWildcards := false;
        }
      }
    }

    /** The lookup returns exactly the live matching identifiers, whatever run led here. */
    method MatchSubject(subject: Subject, ghost live: Live) returns (ids: seq<SubId>)
      requires EngineInv(View(), live) && ValidSubject(subject)
      ensures ids == MatchIds(View(), subject)
      ensures NoDup(ids)
      ensures forall id :: id in ids <==> id in live && Denotes(live[id].tokens, subject.tokens)
    {
      hide EngineInv;
      hide ValidSubject;
      hide Denotes;
      hide NoDup;
      ids := [];
      if subject.raw in exact {
        ids := ids + exact[subject.raw];
      }
      if hasWildcards {
        var wildcardSubs := trie.MatchSubject(subject);
        ids := ids + wildcardSubs;
      }
      MatchIdsDenote(View(), live, subject);
    }

    /** The one live subscription whose literal pattern is this subject, if there is exactly one. */
    method ExactSingleSubscriber(subject: Subject, ghost live: Live) returns (id: Option<SubId>)
      requires EngineInv(View(), live)
      ensures id.Some? ==> Listed(View().exact, subject.raw) == [id.value]
      ensures id.Some? <==>
              exists x :: IsExact(live, x, subject.raw) && forall y :: IsExact(live, y, subject.raw) ==> y == x
      ensures id.Some? ==> IsExact(live, id.value, subject.raw)
    {
      assert ListOk(View().exact, live, subject.raw);
      OneListed(View().exact, live, subject.raw);
      if subject.raw in exact && |exact[subject.raw]| == 1 {
        id := Some(exact[subject.raw][0]);
      } else {
        id := None;
      }
    }

    /**
     Exactly the live subscriptions whose literal pattern is this very text, each once, and whether any
     wildcard subscription is live, so that parsing the text can still matter.
     */
    method MatchSubjectStr(text: string, ghost live: Live) returns (ids: seq<SubId>, needsWildcardParse: bool)
      requires EngineInv(View(), live)
      ensures ids == Listed(View().exact, text) && needsWildcardParse == View().hasWildcards
      ensures NoDup(ids)
      ensures forall id :: id in ids <==> id in live && live[id].raw == text && !HasWildcard(live[id].tokens)
      ensures needsWildcardParse <==> exists id :: id in live && HasWildcard(live[id].tokens)
    {
      ids := if text in exact then exact[text] else [];
      needsWildcardParse := hasWildcards;
      assert ListOk(View().exact, live, text);
      FlagSays(View(), live);
    }

    method MatchWildcards(subject: Subject) returns (ids: seq<SubId>)
      ensures ids == WildcardIds(View(), subject.tokens)
    {
      if hasWildcards {
        ids := trie.MatchSubject(subject);
      } else {
        ids := [];
      }
    }
  }
}
