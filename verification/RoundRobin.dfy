/** A round-robin counter held in a machine word, and how often it lands on one position. */
module RoundRobin {

  /** The counter is a 64-bit word that wraps. */
  const USIZE: nat := 0x1_0000_0000_0000_0000

  type Word = x: nat | x < USIZE

  function WrapAdd1(x: Word): Word {
    if x + 1 < USIZE then x + 1 else 0
  }

  /** The counter after `m` more selections. */
  function Advance(x: Word, m: nat): Word {
    if m == 0 then x else WrapAdd1(Advance(x, m - 1))
  }

  /** The remainder by repeated subtraction, which keeps division out of the proofs that use it. */
  function Rem(x: nat, n: nat): (r: nat)
    requires n > 0
    ensures r < n
  {
    if x < n then x else Rem(x - n, n)
  }

  lemma {:induction false} RemIsModulo(x: nat, n: nat)
    requires n > 0
    ensures Rem(x, n) == x % n
  {
    if x < n {
      DivModUnique(x, n, 0, x);
    } else {
      RemIsModulo(x - n, n);
      var q, t := (x - n) / n, (x - n) % n;
      assert x - n == q * n + t;
      MulDistributes(q, 1, n);
      DivModUnique(x, n, q + 1, t);
    }
  }

  lemma {:induction false} RemNext(x: nat, n: nat)
    requires n > 0
    ensures Rem(x + 1, n) == Rem(Rem(x, n) + 1, n)
  {
    if x >= n {
      RemNext(x - n, n);
    }
  }

  /** How many of `start, start + 1, ..., start + m - 1` are congruent to `r` modulo `n`. */
  function Hits(start: nat, m: nat, n: nat, r: nat): nat
    requires n > 0
  {
    if m == 0 then 0
    else Hits(start, m - 1, n, r) + if Rem(start + m - 1, n) == r then 1 else 0
  }

  /** The same count for `0, ..., y - 1`, in closed form. */
  function Below(y: nat, n: nat, r: nat): nat
    requires n > 0
  {
    y / n + if y % n > r then 1 else 0
  }

  lemma {:induction false} MulMagnitude(d: int, n: int)
    requires n > 0
    ensures d >= 1 ==> d * n >= n
    ensures d <= -1 ==> d * n <= 0 - n
  {
  }

  lemma {:induction false} MulDistributes(a: int, b: int, n: int)
    ensures (a + b) * n == a * n + b * n
  {
  }

  lemma {:induction false} DivModUnique(x: nat, n: nat, q: nat, t: nat)
    requires n > 0 && t < n && x == q * n + t
    ensures x / n == q && x % n == t
  {
    var d := x / n - q;
    assert x == (x / n) * n + x % n;
    MulDistributes(d, q, n);
    MulMagnitude(d, n);
  }

  lemma {:induction false} DivModSum(n: nat, a: nat, s: nat, b: nat, t: nat, sum: nat)
    requires s < n && t < n && sum == (a * n + s) + (b * n + t)
    ensures s + t < n ==> sum / n == a + b && sum % n == s + t
    ensures s + t >= n ==> sum / n == a + b + 1 && sum % n == s + t - n
  {
    MulDistributes(a, b, n);
    if s + t < n {
      DivModUnique(sum, n, a + b, s + t);
    } else {
      MulDistributes(a + b, 1, n);
      DivModUnique(sum, n, a + b + 1, s + t - n);
    }
  }

  lemma {:induction false} DivModAdd(x: nat, m: nat, n: nat)
    requires n > 0
    ensures x % n + m % n < n ==> (x + m) / n == x / n + m / n && (x + m) % n == x % n + m % n
    ensures x % n + m % n >= n ==> (x + m) / n == x / n + m / n + 1 && (x + m) % n == x % n + m % n - n
  {
    DivModSum(n, x / n, x % n, m / n, m % n, x + m);
  }

  lemma {:induction false} BelowStep(y: nat, n: nat, r: nat)
    requires n > 0 && r < n
    ensures Below(y + 1, n, r) == Below(y, n, r) + if y % n == r then 1 else 0
  {
    if n == 1 {
    } else {
      DivModUnique(1, n, 0, 1);
      DivModAdd(y, 1, n);
    }
  }

  lemma {:induction false} HitsClosedForm(start: nat, m: nat, n: nat, r: nat)
    requires n > 0 && r < n
    ensures Hits(start, m, n, r) == Below(start + m, n, r) - Below(start, n, r)
  {
    if m > 0 {
      HitsClosedForm(start, m - 1, n, r);
      BelowStep(start + m - 1, n, r);
      RemIsModulo(start + m - 1, n);
    }
  }

  /** Every position is hit either the floor or the ceiling of `m / n` times. */
  lemma {:induction false} HitsAreFair(start: nat, m: nat, n: nat, r: nat)
    requires n > 0 && r < n
    ensures m / n <= Hits(start, m, n, r) <= m / n + if m % n == 0 then 0 else 1
  {
    HitsClosedForm(start, m, n, r);
    DivModAdd(start, m, n);
  }

  // ---- wrapping ----

  lemma {:induction false} AdvanceAdds(x: Word, a: nat, b: nat)
    ensures Advance(x, a + b) == Advance(Advance(x, a), b)
  {
    if b > 0 {
      AdvanceAdds(x, a, b - 1);
    }
  }

  lemma {:induction false} AdvanceBelow(x: Word, m: nat)
    requires x + m < USIZE
    ensures Advance(x, m) == x + m
  {
    if m > 0 {
      AdvanceBelow(x, m - 1);
    }
  }

  /** The counter reaches zero again, and goes on from there. */
  lemma {:induction false} AdvancePast(x: Word, m: nat)
    requires m < USIZE
    ensures Advance(x, USIZE - x + m) == m
  {
    AdvanceBelow(x, USIZE - x - 1);
    AdvanceAdds(x, USIZE - x, m);
    AdvanceBelow(0, m);
  }

  /** `m` selections among `n` from counter `x` go round in order: they do not pass the wrap, or `n` divides it. */
  predicate Smooth(x: Word, m: nat, n: nat)
    requires n > 0
  {
    x + m <= USIZE || USIZE % n == 0
  }

  lemma {:induction false} AdvanceDividing(x: Word, m: nat, n: nat)
    requires n > 0 && USIZE % n == 0
    ensures Rem(Advance(x, m), n) == Rem(x + m, n)
  {
    if m > 0 {
      AdvanceDividing(x, m - 1, n);
      var at := Advance(x, m - 1);
      RemNext(x + (m - 1), n);
      RemNext(at, n);
      RemIsModulo(USIZE, n);
    }
  }

  lemma {:induction false} SmoothStep(x: Word, m: nat, n: nat)
    requires n > 0 && m > 0 && Smooth(x, m, n)
    ensures Rem(Advance(x, m - 1), n) == Rem(x + (m - 1), n)
  {
    if x + m <= USIZE {
      AdvanceBelow(x, m - 1);
    } else {
      AdvanceDividing(x, m - 1, n);
    }
  }

  lemma {:induction false} FirstIs(x: Word)
    ensures Advance(x, 0) == x
  {
  }

  /** A round of `n` that passes the wrap lands twice on one position, unless `n` divides the word's range. */
  lemma {:induction false} RoughRoundRepeats(x: Word, n: nat) returns (i: nat, j: nat)
    requires n > 0 && !Smooth(x, n, n)
    ensures i < j < n && Rem(Advance(x, i), n) == Rem(Advance(x, j), n)
  {
    hide Advance;
    hide Rem;
    var left, q, u := USIZE - x, USIZE / n, USIZE % n;
    if left <= u {
      i, j := 0, u;
      DivModUnique(x, n, q, u - left);
      RemIsModulo(x, n);
      FirstIs(x);
      AdvancePast(x, u - left);
      RemIsModulo(u - left, n);
      DivModUnique(u - left, n, 0, u - left);
    } else {
      i, j := left - u, left;
      AdvanceBelow(x, i);
      DivModUnique(x + i, n, q, 0);
      RemIsModulo(x + i, n);
      AdvancePast(x, 0);
      RemIsModulo(0, n);
      DivModUnique(0, n, 0, 0);
    }
  }

  // ---- sharing out past the wrap ----

  /** How many of `m` selections from counter `x` land on position `r` of `n`, wrapping included. */
  function Lands(x: Word, m: nat, n: nat, r: nat): nat
    requires n > 0
  {
    if m == 0 then 0
    else Lands(x, m - 1, n, r) + if Rem(Advance(x, m - 1), n) == r then 1 else 0
  }

  lemma {:induction false} LandsSmoothly(x: Word, m: nat, n: nat, r: nat)
    requires n > 0 && Smooth(x, m, n)
    ensures Lands(x, m, n, r) == Hits(x, m, n, r)
  {
    hide Advance;
    hide Rem;
    if m > 0 {
      LandsSmoothly(x, m - 1, n, r);
      SmoothStep(x, m, n);
    }
  }

  /** Short of the wrap, that is counting; past it, the count starts again from zero. */
  lemma {:induction false} LandsAre(x: Word, m: nat, n: nat, r: nat)
    requires n > 0 && x + m <= 2 * USIZE
    ensures x + m <= USIZE ==> Lands(x, m, n, r) == Hits(x, m, n, r)
    ensures x + m > USIZE ==> Lands(x, m, n, r) == Hits(x, USIZE - x, n, r) + Hits(0, x + m - USIZE, n, r)
  {
    hide Advance;
    hide Rem;
    if m > 0 {
      LandsAre(x, m - 1, n, r);
      if x + m <= USIZE {
        AdvanceBelow(x, m - 1);
      } else {
        AdvancePast(x, x + (m - 1) - USIZE);
      }
    }
  }

  /** The positions below `k` together. */
  function LandsBelow(x: Word, m: nat, n: nat, k: nat): nat
    requires n > 0
  {
    if k == 0 then 0 else LandsBelow(x, m, n, k - 1) + Lands(x, m, n, k - 1)
  }

  lemma {:induction false} LandsBelowStep(x: Word, m: nat, n: nat, k: nat)
    requires n > 0 && m > 0
    ensures LandsBelow(x, m, n, k)
         == LandsBelow(x, m - 1, n, k) + if Rem(Advance(x, m - 1), n) < k then 1 else 0
  {
    hide Advance;
    hide Rem;
    if k > 0 {
      LandsBelowStep(x, m, n, k - 1);
    }
  }

  /** Every selection lands somewhere. */
  lemma {:induction false} LandsAddUp(x: Word, m: nat, n: nat)
    requires n > 0
    ensures LandsBelow(x, m, n, n) == m
  {
    if m == 0 {
      NothingLands(x, n, n);
    } else {
      LandsAddUp(x, m - 1, n);
      LandsBelowStep(x, m, n, n);
    }
  }

  lemma {:induction false} NothingLands(x: Word, n: nat, k: nat)
    requires n > 0
    ensures LandsBelow(x, 0, n, k) == 0
  {
    if k > 0 {
      NothingLands(x, n, k - 1);
    }
  }

  /** Every position below `k` has `c` or one more. */
  ghost predicate Level(x: Word, m: nat, n: nat, k: nat, c: nat)
    requires n > 0
  {
    forall r :: 0 <= r < k ==> c <= Lands(x, m, n, r) <= c + 1
  }

  lemma {:induction false} LevelBounds(x: Word, m: nat, n: nat, k: nat, c: nat)
    requires n > 0 && Level(x, m, n, k, c)
    ensures c * k <= LandsBelow(x, m, n, k) <= c * k + k
  {
    hide Lands;
    if k > 0 {
      LevelBounds(x, m, n, k - 1, c);
      MulDistributes(k - 1, 1, c);
      assert c * k == c * (k - 1) + c;
    }
  }

  /** One position among them says which side of the bounds is not reached. */
  lemma {:induction false} LevelAt(x: Word, m: nat, n: nat, k: nat, c: nat, r: nat)
    requires n > 0 && Level(x, m, n, k, c) && r < k
    ensures Lands(x, m, n, r) == c ==> LandsBelow(x, m, n, k) < c * k + k
    ensures Lands(x, m, n, r) == c + 1 ==> c * k < LandsBelow(x, m, n, k)
  {
    hide Lands;
    MulDistributes(k - 1, 1, c);
    assert c * k == c * (k - 1) + c;
    if r == k - 1 {
      LevelBounds(x, m, n, k - 1, c);
    } else {
      LevelAt(x, m, n, k - 1, c, r);
    }
  }

  /** The floor or the ceiling of `m / n`. */
  predicate FairShare(v: nat, m: nat, n: nat)
    requires n > 0
  {
    m / n <= v <= m / n + if m % n == 0 then 0 else 1
  }

  /** Shares that differ by one at most are fair. */
  lemma {:induction false} LevelIsFair(x: Word, m: nat, n: nat, c: nat, r: nat)
    requires n > 0 && Level(x, m, n, n, c) && r < n
    ensures FairShare(Lands(x, m, n, r), m, n)
  {
    hide Lands;
    LandsAddUp(x, m, n);
    LevelBounds(x, m, n, n, c);
    LevelAt(x, m, n, n, c, r);
    MulDistributes(c, 1, n);
    if m == c * n + n {
      DivModUnique(m, n, c + 1, 0);
    } else {
      DivModUnique(m, n, c, m - c * n);
    }
  }

  /** Position `r` is in the last, partial round of `m` from `start`. */
  predicate Extra(start: nat, m: nat, n: nat, r: nat)
    requires n > 0
  {
    Hits(start, m, n, r) > m / n
  }

  lemma {:induction false} HitsByExtra(start: nat, m: nat, n: nat, r: nat)
    requires n > 0 && r < n
    ensures Hits(start, m, n, r) == m / n + if Extra(start, m, n, r) then 1 else 0
  {
    HitsAreFair(start, m, n, r);
  }

  /** In both partial rounds, that before the wrap and that after it. */
  predicate Doubled(x: Word, m: nat, n: nat, r: nat)
    requires n > 0 && x + m > USIZE
  {
    Extra(x, USIZE - x, n, r) && Extra(0, x + m - USIZE, n, r)
  }

  /** In neither. */
  predicate Skipped(x: Word, m: nat, n: nat, r: nat)
    requires n > 0 && x + m > USIZE
  {
    !Extra(x, USIZE - x, n, r) && !Extra(0, x + m - USIZE, n, r)
  }

  /** `m` selections from `x`, past the wrap once, leave some position two behind another. */
  ghost predicate Lopsided(x: Word, m: nat, n: nat)
    requires n > 0
  {
    x + m > USIZE && (exists r :: 0 <= r < n && Doubled(x, m, n, r)) && (exists r :: 0 <= r < n && Skipped(x, m, n, r))
  }

  ghost predicate Fair(x: Word, m: nat, n: nat)
    requires n > 0
  {
    forall r :: 0 <= r < n ==> FairShare(Lands(x, m, n, r), m, n)
  }

  /** The whole rounds before the wrap and after it. */
  function WholeRounds(x: Word, m: nat, n: nat): nat
    requires n > 0 && x + m > USIZE
  {
    (USIZE - x) / n + (x + m - USIZE) / n
  }

  lemma {:induction false} LandsByRounds(x: Word, m: nat, n: nat, r: nat)
    requires n > 0 && r < n && USIZE < x + m <= 2 * USIZE
    ensures var base := WholeRounds(x, m, n);
            Lands(x, m, n, r)
            == if Doubled(x, m, n, r) then base + 2 else if Skipped(x, m, n, r) then base else base + 1
  {
    LandsAre(x, m, n, r);
    HitsByExtra(x, USIZE - x, n, r);
    HitsByExtra(0, x + m - USIZE, n, r);
  }

  lemma {:induction false} FairSharesAreClose(v: nat, w: nat, m: nat, n: nat)
    requires n > 0 && FairShare(v, m, n) && FairShare(w, m, n)
    ensures v <= w + 1
  {
  }

  lemma {:induction false} UnwrappedIsFair(x: Word, m: nat, n: nat)
    requires n > 0 && x + m <= USIZE
    ensures Fair(x, m, n)
  {
    hide Lands;
    hide Hits;
    forall r | 0 <= r < n ensures FairShare(Lands(x, m, n, r), m, n) {
      LandsAre(x, m, n, r);
      HitsAreFair(x, m, n, r);
    }
  }

  lemma {:induction false} LopsidedIsUnfair(x: Word, m: nat, n: nat)
    requires n > 0 && x + m <= 2 * USIZE && Lopsided(x, m, n)
    ensures !Fair(x, m, n)
  {
    hide Lands;
    hide Doubled;
    hide Skipped;
    hide WholeRounds;
    hide FairShare;
    var r :| 0 <= r < n && Doubled(x, m, n, r);
    var t :| 0 <= t < n && Skipped(x, m, n, t);
    LandsByRounds(x, m, n, r);
    LandsByRounds(x, m, n, t);
    DoubledIsNotSkipped(x, m, n, t);
    if FairShare(Lands(x, m, n, r), m, n) && FairShare(Lands(x, m, n, t), m, n) {
      FairSharesAreClose(Lands(x, m, n, r), Lands(x, m, n, t), m, n);
    }
  }

  lemma {:induction false} WrappedIsLevel(x: Word, m: nat, n: nat) returns (c: nat)
    requires n > 0 && USIZE < x + m <= 2 * USIZE && !Lopsided(x, m, n)
    ensures Level(x, m, n, n, c)
  {
    hide Lands;
    hide Doubled;
    hide Skipped;
    hide WholeRounds;
    var base := WholeRounds(x, m, n);
    c := if exists r :: 0 <= r < n && Doubled(x, m, n, r) then base + 1 else base;
    forall r | 0 <= r < n ensures c <= Lands(x, m, n, r) <= c + 1 {
      LandsByRounds(x, m, n, r);
    }
  }

  /**
   Past the wrap once, every position gets the floor or the ceiling of `m / n` if and only if there is not
   both a position in the two partial rounds and one in neither.
   */
  lemma {:induction false} FairIff(x: Word, m: nat, n: nat)
    requires n > 0 && x + m <= 2 * USIZE
    ensures Fair(x, m, n) <==> !Lopsided(x, m, n)
  {
    if x + m <= USIZE {
      UnwrappedIsFair(x, m, n);
    } else if Lopsided(x, m, n) {
      LopsidedIsUnfair(x, m, n);
    } else {
      hide Lands;
      hide FairShare;
      var c := WrappedIsLevel(x, m, n);
      forall r | 0 <= r < n ensures FairShare(Lands(x, m, n, r), m, n) {
        LevelIsFair(x, m, n, c, r);
      }
    }
  }

  lemma {:induction false} DoubledIsNotSkipped(x: Word, m: nat, n: nat, r: nat)
    requires n > 0 && x + m > USIZE
    ensures !(Doubled(x, m, n, r) && Skipped(x, m, n, r))
  {
  }
}
