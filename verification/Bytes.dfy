/** Bytes and big-endian words, as `to_be_bytes`, `put_u16` and their readers lay them out. */
module Bytes {

  type byte = n: int | 0 <= n < 256

  function Pow256(n: nat): (r: nat)
    ensures r > 0
  {
    if n == 0 then 1 else 256 * Pow256(n - 1)
  }

  /** The low `n` bytes of `v`, most significant first: a wider `v` is truncated as by `as u16`. */
  function Be(n: nat, v: nat): (r: seq<byte>)
    ensures |r| == n
  {
    seq(n, i requires 0 <= i < n => Digit(v, n - 1 - i))
  }

  /** Byte `i` of `v`, counted from the least significant. */
  function Digit(v: nat, i: nat): byte {
    if i == 0 then v % 256 else Digit(v / 256, i - 1)
  }

  function Un(s: seq<byte>): (r: nat) {
    if s == [] then 0 else 256 * Un(s[..|s| - 1]) + s[|s| - 1]
  }

  lemma {:induction false} BeInit(n: nat, v: nat)
    requires n > 0
    ensures Be(n, v)[..n - 1] == Be(n - 1, v / 256) && Be(n, v)[n - 1] == v % 256
  {
    forall i | 0 <= i < n - 1 ensures Be(n, v)[i] == Be(n - 1, v / 256)[i] {
      assert Digit(v, n - 1 - i) == Digit(v / 256, n - 2 - i);
    }
    assert Be(n, v)[n - 1] == Digit(v, 0);
  }

  lemma {:induction false} UnBe(n: nat, v: nat)
    requires v < Pow256(n)
    ensures Un(Be(n, v)) == v
  {
    if n > 0 {
      UnBe(n - 1, v / 256);
      BeInit(n, v);
    }
  }

  lemma {:induction false} BeUn(s: seq<byte>)
    ensures Un(s) < Pow256(|s|)
    ensures Be(|s|, Un(s)) == s
  {
    if s != [] {
      var n := |s| - 1;
      BeUn(s[..n]);
      assert Un(s) / 256 == Un(s[..n]) && Un(s) % 256 == s[n];
      BeInit(|s|, Un(s));
      assert Be(|s|, Un(s)) == Be(|s|, Un(s))[..n] + [Be(|s|, Un(s))[n]];
      assert s == s[..n] + [s[n]];
    }
  }

  /** The big-endian word of `n` bytes at `at`. */
  function Word(t: seq<byte>, at: nat, n: nat): nat
    requires at + n <= |t|
  {
    if n == 0 then 0 else 256 * Word(t, at, n - 1) + t[at + n - 1]
  }

  lemma {:induction false} WordIsUn(t: seq<byte>, at: nat, s: seq<byte>)
    requires at + |s| <= |t|
    requires forall i :: 0 <= i < |s| ==> t[at + i] == s[i]
    ensures Word(t, at, |s|) == Un(s)
  {
    if s != [] {
      WordIsUn(t, at, s[..|s| - 1]);
    }
  }

  /** A word written is the word read, wherever it stands. */
  lemma {:induction false} WordAt(t: seq<byte>, at: nat, n: nat, v: nat)
    requires at + n <= |t| && t[at..at + n] == Be(n, v) && v < Pow256(n)
    ensures Word(t, at, n) == v
  {
    hide Be;
    WordIsUn(t, at, t[at..at + n]);
    UnBe(n, v);
  }

  /** And a word read is the word written. */
  lemma {:induction false} AtWord(t: seq<byte>, at: nat, n: nat)
    requires at + n <= |t|
    ensures Word(t, at, n) < Pow256(n) && Be(n, Word(t, at, n)) == t[at..at + n]
  {
    WordIsUn(t, at, t[at..at + n]);
    BeUn(t[at..at + n]);
  }

  const U16: nat := 0x1_0000
  const U32: nat := 0x1_0000_0000
  const U64: nat := 0x1_0000_0000_0000_0000

  lemma {:induction false} Widths()
    ensures Pow256(1) == 256 && Pow256(2) == U16 && Pow256(4) == U32 && Pow256(8) == U64
  {
    assert Pow256(3) == 0x100_0000;
    assert Pow256(5) == 0x100_0000_0000;
    assert Pow256(6) == 0x1_0000_0000_0000;
    assert Pow256(7) == 0x100_0000_0000_0000;
  }
}
