/**
 The wildcard trie. A pattern's identifier is filed in one slot: a path of token texts plus
 a flag saying whether it sits in the node's `>` list or in its exact list. Insert and remove
 are characterised by what they do to every slot, and matching by the list of slots it visits.
 */
module Tries {
  import opened Subjects
  import opened Seqs

  type SubId = nat

  datatype TrieNode = TrieNode(children: map<string, TrieNode>, multi: seq<SubId>, exact: seq<SubId>)

  datatype Trie = Trie(root: TrieNode, count: nat)

  datatype Slot = Slot(path: seq<string>, multi: bool)

  const EMPTY_NODE: TrieNode := TrieNode(map[], [], [])
  const EMPTY_TRIE: Trie := Trie(EMPTY_NODE, 0)

  function SlotFor(tokens: seq<string>, multi: bool): Slot {
    if multi && tokens != [] then Slot(tokens[..|tokens| - 1], true) else Slot(tokens, false)
  }

  /** The identifiers filed in a slot. */
  function At(n: TrieNode, slot: Slot): seq<SubId>
    decreases |slot.path|
  {
    if slot.path == [] then (if slot.multi then n.multi else n.exact)
    else if slot.path[0] in n.children then At(n.children[slot.path[0]], Slot(slot.path[1..], slot.multi))
    else []
  }

  lemma {:induction false} EmptyAt(slot: Slot)
    ensures At(EMPTY_NODE, slot) == []
  {
  }

  // ---- insert and remove ----

  function InsertNode(n: TrieNode, tokens: seq<string>, id: SubId, multi: bool): TrieNode
    decreases |tokens|
  {
    if tokens == [] then n.(exact := n.exact + [id])
    else if multi && |tokens| == 1 then n.(multi := n.multi + [id])
    else
      var child := if tokens[0] in n.children then n.children[tokens[0]] else EMPTY_NODE;
      n.(children := n.children[tokens[0] := InsertNode(child, tokens[1..], id, multi)])
  }

  lemma {:induction false} InsertAt(n: TrieNode, tokens: seq<string>, id: SubId, multi: bool, slot: Slot)
    ensures At(InsertNode(n, tokens, id, multi), slot)
         == At(n, slot) + (if slot == SlotFor(tokens, multi) then [id] else [])
    decreases |tokens|
  {
    if tokens == [] || (multi && |tokens| == 1) {
    } else {
      assert SlotFor(tokens, multi).path == [tokens[0]] + SlotFor(tokens[1..], multi).path;
      if slot.path != [] && slot.path[0] == tokens[0] {
        var child := if tokens[0] in n.children then n.children[tokens[0]] else EMPTY_NODE;
        var below := Slot(slot.path[1..], slot.multi);
        InsertAt(child, tokens[1..], id, multi, below);
        EmptyAt(below);
        assert slot.path == [tokens[0]] + below.path;
        assert below.path == SlotFor(tokens[1..], multi).path <==> slot.path == SlotFor(tokens, multi).path;
      }
    }
  }

  /** The node after a remove, and whether a list got shorter. */
  function RemoveNode(n: TrieNode, tokens: seq<string>, id: SubId, multi: bool): (TrieNode, bool)
    decreases |tokens|
  {
    if tokens == [] then
      var kept := Without(n.exact, id);
      (n.(exact := kept), |kept| < |n.exact|)
    else if multi && |tokens| == 1 then
      var kept := Without(n.multi, id);
      (n.(multi := kept), |kept| < |n.multi|)
    else if tokens[0] in n.children then
      var (child, shrunk) := RemoveNode(n.children[tokens[0]], tokens[1..], id, multi);
      (n.(children := n.children[tokens[0] := child]), shrunk)
    else (n, false)
  }

  lemma {:induction false} RemoveAt(n: TrieNode, tokens: seq<string>, id: SubId, multi: bool, slot: Slot)
    ensures At(RemoveNode(n, tokens, id, multi).0, slot)
         == if slot == SlotFor(tokens, multi) then Without(At(n, slot), id) else At(n, slot)
    ensures slot == SlotFor(tokens, multi) ==>
              RemoveNode(n, tokens, id, multi).1 == (|Without(At(n, slot), id)| < |At(n, slot)|)
    decreases |tokens|
  {
    if tokens == [] || (multi && |tokens| == 1) {
    } else {
      assert SlotFor(tokens, multi).path == [tokens[0]] + SlotFor(tokens[1..], multi).path;
      if slot.path != [] && slot.path[0] == tokens[0] && tokens[0] in n.children {
        var below := Slot(slot.path[1..], slot.multi);
        RemoveAt(n.children[tokens[0]], tokens[1..], id, multi, below);
        assert slot.path == [tokens[0]] + below.path;
        assert below.path == SlotFor(tokens[1..], multi).path <==> slot.path == SlotFor(tokens, multi).path;
      }
    }
  }

  lemma {:induction false} ShorterIff(list: seq<SubId>, id: SubId)
    ensures |Without(list, id)| < |list| <==> id in list
  {
    if id !in list {
      WithoutAbsent(list, id);
    } else if list[0] != id {
      ShorterIff(list[1..], id);
    }
  }

  function InsertTrie(t: Trie, tokens: seq<string>, id: SubId, multi: bool): Trie {
    Trie(InsertNode(t.root, tokens, id, multi), t.count + 1)
  }

  function RemoveTrie(t: Trie, tokens: seq<string>, id: SubId, multi: bool): Trie {
    var (root, shrunk) := RemoveNode(t.root, tokens, id, multi);
    Trie(root, if shrunk && t.count > 0 then t.count - 1 else t.count)
  }

  // ---- matching ----

  /** `match_recursive` from a node, on the tokens still to match. */
  function MatchNode(n: TrieNode, s: seq<string>): seq<SubId>
    decreases |s|
  {
    if s == [] then n.exact
    else
      n.multi
      + (if s[0] in n.children then MatchNode(n.children[s[0]], s[1..]) else [])
      + (if "*" in n.children && s[0] != "*" then MatchNode(n.children["*"], s[1..]) else [])
  }

  /** What a match finds below the literal child and below the star. */
  function Below(n: TrieNode, token: string, s: seq<string>): (seq<SubId>, seq<SubId>) {
    (if token in n.children then MatchNode(n.children[token], s) else [],
     if "*" in n.children && token != "*" then MatchNode(n.children["*"], s) else [])
  }

  lemma {:induction false} MatchUnfolds(n: TrieNode, tokens: seq<string>, index: nat)
    requires index <= |tokens|
    ensures index == |tokens| ==> MatchNode(n, tokens[index..]) == n.exact
    ensures index < |tokens| ==>
              var below := Below(n, tokens[index], tokens[index + 1..]);
              MatchNode(n, tokens[index..]) == n.multi + below.0 + below.1
  {
    if index < |tokens| {
      assert tokens[index..][1..] == tokens[index + 1..];
    }
  }

  lemma {:induction false} FourParts(r: seq<SubId>, a: seq<SubId>, b: seq<SubId>, c: seq<SubId>)
    ensures r + (a + b + c) == (r + a) + b + c
  {
  }

  lemma {:induction false} MatchParts(n: TrieNode, tokens: seq<string>, index: nat, results: seq<SubId>)
    requires index <= |tokens|
    ensures index == |tokens| ==> results + MatchNode(n, tokens[index..]) == results + n.exact
    ensures index < |tokens| ==>
              var below := Below(n, tokens[index], tokens[index + 1..]);
              results + MatchNode(n, tokens[index..]) == (results + n.multi) + below.0 + below.1
  {
    hide *;
    MatchUnfolds(n, tokens, index);
    if index < |tokens| {
      var below := Below(n, tokens[index], tokens[index + 1..]);
      FourParts(results, n.multi, below.0, below.1);
    }
  }

  function Under(token: string, slots: seq<Slot>): (r: seq<Slot>)
    ensures |r| == |slots|
    ensures forall i :: 0 <= i < |slots| ==> r[i] == Slot([token] + slots[i].path, slots[i].multi)
  {
    seq(|slots|, i requires 0 <= i < |slots| => Slot([token] + slots[i].path, slots[i].multi))
  }

  /** The slots a match on `s` looks into, in the order it visits them. */
  function MatchSlots(s: seq<string>): seq<Slot> {
    if s == [] then [Slot([], false)]
    else
      [Slot([], true)] + Under(s[0], MatchSlots(s[1..]))
      + (if s[0] != "*" then Under("*", MatchSlots(s[1..])) else [])
  }

  /** A slot's patterns match `s`: `*` stands for one token, and a `>` list needs a further token. */
  ghost predicate SlotMatches(slot: Slot, s: seq<string>) {
    && (if slot.multi then |slot.path| < |s| else |slot.path| == |s|)
    && forall i :: 0 <= i < |slot.path| ==> slot.path[i] == "*" || slot.path[i] == s[i]
  }

  function Gather(n: TrieNode, slots: seq<Slot>): seq<SubId> {
    if slots == [] then [] else At(n, slots[0]) + Gather(n, slots[1..])
  }

  lemma {:induction false} GatherConcat(n: TrieNode, a: seq<Slot>, b: seq<Slot>)
    ensures Gather(n, a + b) == Gather(n, a) + Gather(n, b)
  {
    if a == [] {
      assert a + b == b;
    } else {
      GatherConcat(n, a[1..], b);
      assert (a + b)[1..] == a[1..] + b;
      ConcatAssoc(At(n, a[0]), Gather(n, a[1..]), Gather(n, b));
    }
  }

  lemma {:induction false} GatherUnder(n: TrieNode, token: string, slots: seq<Slot>)
    ensures Gather(n, Under(token, slots))
         == if token in n.children then Gather(n.children[token], slots) else []
  {
    if slots != [] {
      GatherUnder(n, token, slots[1..]);
      assert Under(token, slots)[1..] == Under(token, slots[1..]);
      assert Under(token, slots)[0].path[1..] == slots[0].path;
    }
  }

  /** A match reads exactly the slots of `MatchSlots`, one after the other. */
  lemma {:induction false} MatchGathers(n: TrieNode, s: seq<string>)
    ensures MatchNode(n, s) == Gather(n, MatchSlots(s))
    decreases |s|
  {
    if s == [] {
      assert Gather(n, [Slot([], false)]) == n.exact + Gather(n, []);
    } else {
      var rest := MatchSlots(s[1..]);
      var star := if s[0] != "*" then Under("*", rest) else [];
      var head := [Slot([], true)];
      assert MatchSlots(s) == (head + Under(s[0], rest)) + star;
      GatherConcat(n, head + Under(s[0], rest), star);
      GatherConcat(n, head, Under(s[0], rest));
      assert Gather(n, head) == n.multi + Gather(n, []);
      GatherUnder(n, s[0], rest);
      GatherUnder(n, "*", rest);
      if s[0] in n.children {
        MatchGathers(n.children[s[0]], s[1..]);
      }
      if "*" in n.children {
        MatchGathers(n.children["*"], s[1..]);
      }
    }
  }

  lemma {:induction false} SlotMatchesStep(slot: Slot, s: seq<string>)
    requires s != [] && slot.path != []
    ensures SlotMatches(slot, s) <==>
            (slot.path[0] == "*" || slot.path[0] == s[0]) && SlotMatches(Slot(slot.path[1..], slot.multi), s[1..])
  {
    var below := Slot(slot.path[1..], slot.multi);
    if SlotMatches(slot, s) {
      forall i | 0 <= i < |below.path| ensures below.path[i] == "*" || below.path[i] == s[1..][i] {
        assert slot.path[i + 1] == "*" || slot.path[i + 1] == s[i + 1];
      }
    }
    if (slot.path[0] == "*" || slot.path[0] == s[0]) && SlotMatches(below, s[1..]) {
      forall i | 0 <= i < |slot.path| ensures slot.path[i] == "*" || slot.path[i] == s[i] {
        if i > 0 {
          assert below.path[i - 1] == "*" || below.path[i - 1] == s[1..][i - 1];
        }
      }
    }
  }

  lemma {:induction false} MatchSlotsExact(s: seq<string>, slot: Slot)
    ensures slot in MatchSlots(s) <==> SlotMatches(slot, s)
    decreases |s|
  {
    if s != [] && slot.path != [] {
      var rest := MatchSlots(s[1..]);
      MatchSlotsExact(s[1..], Slot(slot.path[1..], slot.multi));
      SlotMatchesStep(slot, s);
      UnderMember(s[0], rest, slot);
      UnderMember("*", rest, slot);
    } else if s != [] {
      assert Slot([], true) in MatchSlots(s);
      assert slot.path == [] && Slot([], false) !in MatchSlots(s);
    }
  }

  lemma {:induction false} UnderMember(token: string, slots: seq<Slot>, slot: Slot)
    requires slot.path != []
    ensures slot in Under(token, slots) <==> slot.path[0] == token && Slot(slot.path[1..], slot.multi) in slots
  {
    if slot.path[0] == token && Slot(slot.path[1..], slot.multi) in slots {
      var i :| 0 <= i < |slots| && slots[i] == Slot(slot.path[1..], slot.multi);
      assert Under(token, slots)[i] == slot;
    }
  }

  lemma {:induction false} MatchSlotsDistinct(s: seq<string>)
    ensures NoDup(MatchSlots(s))
    decreases |s|
  {
    if s != [] {
      var rest := MatchSlots(s[1..]);
      MatchSlotsDistinct(s[1..]);
      UnderDistinct(s[0], rest);
      UnderDistinct("*", rest);
      var head := [Slot([], true)];
      assert forall x :: x in Under(s[0], rest) ==> x.path != [] && x.path[0] == s[0];
      assert forall x :: x in Under("*", rest) ==> x.path != [] && x.path[0] == "*";
      NoDupConcat(head, Under(s[0], rest));
      NoDupConcat(head + Under(s[0], rest), if s[0] != "*" then Under("*", rest) else []);
    }
  }

  lemma {:induction false} UnderDistinct(token: string, slots: seq<Slot>)
    requires NoDup(slots)
    ensures NoDup(Under(token, slots))
  {
    var u := Under(token, slots);
    forall i, j | 0 <= i < j < |u| ensures u[i] != u[j] {
      assert u[i].path[1..] == slots[i].path && u[j].path[1..] == slots[j].path;
    }
  }

  // ---- the mutable trie ----

  class SubjectTrie {
    var root: TrieNode
    var subscriberCount: nat

    ghost function View(): Trie
      reads this
    {
      Trie(root, subscriberCount)
    }

    constructor ()
      ensures View() == EMPTY_TRIE
    {
      root := EMPTY_NODE;
      subscriberCount := 0;
    }

    method IsEmpty() returns (b: bool)
      ensures b == (View().count == 0)
    {
      b := subscriberCount == 0;
    }

    /** The pattern's own slot gains the identifier at its end; every other slot is left alone. */
    method Insert(tokens: seq<string>, id: SubId, multi: bool)
      modifies this
      ensures View() == InsertTrie(old(View()), tokens, id, multi)
      ensures forall slot :: At(root, slot) ==
                old(At(root, slot)) + (if slot == SlotFor(tokens, multi) then [id] else [])
      ensures subscriberCount == old(subscriberCount) + 1
    {
      forall slot
        ensures At(InsertNode(root, tokens, id, multi), slot) ==
                At(root, slot) + (if slot == SlotFor(tokens, multi) then [id] else [])
      {
        InsertAt(root, tokens, id, multi, slot);
      }
      root := InsertNode(root, tokens, id, multi);
      subscriberCount := subscriberCount + 1;
    }

    /**
     The pattern's own slot loses the identifier and every other slot is left alone; the counter goes down
     by one if and only if the identifier was there.
     */
    method Remove(tokens: seq<string>, id: SubId, multi: bool)
      modifies this
      ensures View() == RemoveTrie(old(View()), tokens, id, multi)
      ensures forall slot :: At(root, slot) ==
                if slot == SlotFor(tokens, multi) then Without(old(At(root, slot)), id) else old(At(root, slot))
      ensures subscriberCount ==
                if id in old(At(root, SlotFor(tokens, multi))) && old(subscriberCount) > 0
                then old(subscriberCount) - 1 else old(subscriberCount)
    {
      var (node, shrunk) := RemoveNode(root, tokens, id, multi);
      forall slot
        ensures At(node, slot) == if slot == SlotFor(tokens, multi) then Without(At(root, slot), id) else At(root, slot)
      {
        RemoveAt(root, tokens, id, multi, slot);
      }
      RemoveAt(root, tokens, id, multi, SlotFor(tokens, multi));
      ShorterIff(At(root, SlotFor(tokens, multi)), id);
      root := node;
      if shrunk && subscriberCount > 0 {
        subscriberCount := subscriberCount - 1;
      }
    }

    method MatchSubject(subject: Subject) returns (ids: seq<SubId>)
      ensures ids == MatchNode(root, subject.tokens)
    {
      ids := MatchRecursive(root, subject.tokens, 0, []);
    }

    static method MatchRecursive(node: TrieNode, tokens: seq<string>, index: nat, results: seq<SubId>)
      returns (ids: seq<SubId>)
      requires index <= |tokens|
      ensures ids == results + MatchNode(node, tokens[index..])
      decreases |tokens| - index
    {
      hide MatchNode;
      ids := results;
      if node.multi != [] && index < |tokens| {
        ids := ids + node.multi;
      }
      assert node.multi == [] ==> results + node.multi == results;
      MatchParts(node, tokens, index, results);
      if index == |tokens| {
        ids := ids + node.exact;
        return;
      }
      if tokens[index] in node.children {
        ids := MatchRecursive(node.children[tokens[index]], tokens, index + 1, ids);
      }
      if "*" in node.children {
        if tokens[index] != "*" {
          ids := MatchRecursive(node.children["*"], tokens, index + 1, ids);
        }
      }
    }
  }
}
