/** Sequence facts shared by the routing, broker and store models. */
module Seqs {

  ghost predicate NoDup<T>(s: seq<T>) {
    forall i, j :: 0 <= i < j < |s| ==> s[i] != s[j]
  }

  lemma {:induction false} NoDupConcat<T(!new)>(a: seq<T>, b: seq<T>)
    requires NoDup(a) && NoDup(b)
    requires forall x :: x in a ==> x !in b
    ensures NoDup(a + b)
  {
    forall i, j | 0 <= i < j < |a + b| ensures (a + b)[i] != (a + b)[j] {
      if i < |a| <= j {
        assert a[i] in a && b[j - |a|] in b;
      }
    }
  }

  lemma {:induction false} NoDupAppend<T>(s: seq<T>, x: T)
    requires NoDup(s) && x !in s
    ensures NoDup(s + [x])
  {
  }

  lemma {:induction false} ConcatAssoc<T>(a: seq<T>, b: seq<T>, c: seq<T>)
    ensures (a + b) + c == a + (b + c)
  {
  }

  /** Of two parts appended to `a`, one is empty. */
  lemma {:induction false} ConcatEither<T>(a: seq<T>, b: seq<T>, c: seq<T>, rest: seq<T>)
    requires (b == rest && c == []) || (b == [] && c == rest)
    ensures a + b + c == a + rest
  {
  }

  /** Strictly increasing identifiers: the order in which they were handed out. */
  ghost predicate Ascending(s: seq<nat>) {
    forall i, j :: 0 <= i < j < |s| ==> s[i] < s[j]
  }

  /** `Vec::retain(|y| y != x)`. */
  function Without<T(==,!new)>(s: seq<T>, x: T): (r: seq<T>)
    ensures |r| <= |s|
    ensures forall y :: y in r <==> y in s && y != x
  {
    if s == [] then []
    else (if s[0] == x then [] else [s[0]]) + Without(s[1..], x)
  }

  lemma {:induction false} WithoutAbsent<T(!new)>(s: seq<T>, x: T)
    requires x !in s
    ensures Without(s, x) == s
  {
    if s != [] {
      WithoutAbsent(s[1..], x);
    }
  }

  lemma {:induction false} WithoutNoDup<T(!new)>(s: seq<T>, x: T)
    requires NoDup(s)
    ensures NoDup(Without(s, x))
    ensures x in s ==> |Without(s, x)| == |s| - 1
  {
    if s != [] {
      WithoutNoDup(s[1..], x);
      assert s[0] !in Without(s[1..], x);
      if s[0] == x {
        WithoutAbsent(s[1..], x);
      }
    }
  }

  lemma {:induction false} WithoutAscending(s: seq<nat>, x: nat)
    requires Ascending(s)
    ensures Ascending(Without(s, x))
  {
    if s != [] {
      WithoutAscending(s[1..], x);
      var rest := Without(s[1..], x);
      forall j | 0 <= j < |rest| ensures s[0] < rest[j] {
        assert rest[j] in rest;
      }
    }
  }

  /** `Vec::retain(|y| !xs.contains(y))`. */
  function WithoutAll<T(==,!new)>(s: seq<T>, xs: seq<T>): (r: seq<T>)
    ensures forall y :: y in r <==> y in s && y !in xs
  {
    if s == [] then []
    else (if s[0] in xs then [] else [s[0]]) + WithoutAll(s[1..], xs)
  }

  lemma {:induction false} WithoutAllAscending(s: seq<nat>, xs: seq<nat>)
    requires Ascending(s)
    ensures Ascending(WithoutAll(s, xs))
  {
    if s != [] {
      WithoutAllAscending(s[1..], xs);
      var rest := WithoutAll(s[1..], xs);
      forall j | 0 <= j < |rest| ensures s[0] < rest[j] {
        assert rest[j] in rest;
      }
    }
  }

  lemma {:induction false} WithoutAllAbsent<T(!new)>(s: seq<T>, xs: seq<T>)
    requires forall i :: 0 <= i < |s| ==> s[i] !in xs
    ensures WithoutAll(s, xs) == s
  {
    if s != [] {
      WithoutAllAbsent(s[1..], xs);
    }
  }

  lemma {:induction false} WithoutAllTwice<T(!new)>(s: seq<T>, xs: seq<T>)
    ensures WithoutAll(WithoutAll(s, xs), xs) == WithoutAll(s, xs)
  {
    var t := WithoutAll(s, xs);
    forall i | 0 <= i < |t| ensures t[i] !in xs {
      assert t[i] in t;
    }
    WithoutAllAbsent(t, xs);
  }

  /** A sequence without duplicates is as long as its set of elements is large. */
  lemma {:induction false} NoDupSize<T(!new)>(s: seq<T>, elements: set<T>)
    requires NoDup(s)
    requires forall x :: x in s <==> x in elements
    ensures |s| == |elements|
  {
    if s == [] {
      assert elements == {};
    } else {
      var rest := elements - {s[0]};
      forall x ensures x in s[1..] <==> x in rest {
        if x in s[1..] {
          var i :| 0 <= i < |s[1..]| && s[1..][i] == x;
          assert s[0] != s[i + 1];
        }
      }
      NoDupSize(s[1..], rest);
    }
  }
}
