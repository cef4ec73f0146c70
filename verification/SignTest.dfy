/** The exact two-sided sign test of the reviewer comparison. */
module SignTest {

  function Pow2(n: nat): (r: nat)
    ensures r >= 1
  {
    if n == 0 then 1 else 2 * Pow2(n - 1)
  }

  function Choose(n: nat, k: nat): nat {
    if k == 0 then 1 else if n == 0 then 0 else Choose(n - 1, k - 1) + Choose(n - 1, k)
  }

  /** The number of outcomes with at most k of n signs pointing one way. */
  function Tail(n: nat, k: nat): nat {
    Choose(n, k) + if k == 0 then 0 else Tail(n, k - 1)
  }

  function Min(a: int, b: int): int {
    if a < b then a else b
  }

  function PValue(worse: nat, better: nat): real {
    var n := worse + better;
    if n == 0 then 1.0
    else
      var p := (2 * Tail(n, Min(worse, better))) as real / Pow2(n) as real;
      if p < 1.0 then p else 1.0
  }

  // ---------------------------------------------------------------- binomial coefficients

  lemma {:induction false} ChooseAboveIsZero(n: nat, k: nat)
    requires k > n
    ensures Choose(n, k) == 0
  {
    if n > 0 {
      ChooseAboveIsZero(n - 1, k - 1);
      ChooseAboveIsZero(n - 1, k);
    }
  }

  lemma {:induction false} ChooseSymmetric(n: nat, k: nat)
    requires k <= n
    ensures Choose(n, k) == Choose(n, n - k)
  {
    if 0 < k < n {
      ChooseSymmetric(n - 1, k - 1);
      ChooseSymmetric(n - 1, k);
    } else if n > 0 {
      ChooseFull(n);
    }
  }

  lemma {:induction false} ChooseFull(n: nat)
    ensures Choose(n, n) == 1
  {
    if n > 0 {
      ChooseFull(n - 1);
      ChooseAboveIsZero(n - 1, n);
    }
  }

  /** The step of the loop divides exactly. */
  lemma {:induction false} ChooseStep(n: nat, k: nat)
    requires 0 < k <= n
    ensures Choose(n, k - 1) * (n - k + 1) == Choose(n, k) * k
  {
    if k == 1 {
      ChooseOne(n);
    } else if k == n {
      ChooseSymmetric(n, n - 1);
      ChooseOne(n);
      ChooseFull(n);
    } else {
      ChooseStep(n - 1, k - 1);
      ChooseStep(n - 1, k);
      StepArithmetic(Choose(n - 1, k - 2), Choose(n - 1, k - 1), Choose(n - 1, k), n, k);
    }
  }

  lemma StepArithmetic(a: int, b: int, c: int, n: int, k: int)
    requires a * (n - k + 1) == b * (k - 1) && b * (n - k) == c * k
    ensures (a + b) * (n - k + 1) == (b + c) * k
  {
    assert (a + b) * (n - k + 1) == a * (n - k + 1) + b * (n - k) + b;
    assert (b + c) * k == b * (k - 1) + b + c * k;
  }

  lemma {:induction false} ChooseOne(n: nat)
    ensures Choose(n, 1) == n
  {
    if n > 0 { ChooseOne(n - 1); }
  }

  lemma {:induction false} TailFull(n: nat)
    ensures Tail(n, n) == Pow2(n)
  {
    if n > 0 {
      TailPascal(n, n);
      TailFull(n - 1);
      ChooseAboveIsZero(n - 1, n);
    }
  }

  lemma {:induction false} TailPascal(n: nat, k: nat)
    requires n > 0
    ensures Tail(n, k) == Tail(n - 1, k) + if k == 0 then 0 else Tail(n - 1, k - 1)
  {
    if k > 0 { TailPascal(n, k - 1); }
  }

  lemma {:induction false} TailMonotone(n: nat, j: nat, k: nat)
    requires j <= k
    ensures Tail(n, j) <= Tail(n, k)
    ensures Tail(n, k) >= 1
  {
    if j < k { TailMonotone(n, j, k - 1); }
    else if k > 0 { TailMonotone(n, k - 1, k - 1); }
  }

  /** The two tails of a symmetric distribution: below the middle they are disjoint, at the middle they cover all. */
  lemma {:induction false} TailReflects(n: nat, k: nat)
    requires k < n
    ensures Tail(n, k) + Tail(n, n - k - 1) == Pow2(n)
  {
    if k == 0 {
      TailFull(n);
      ChooseFull(n);
    } else {
      TailReflects(n, k - 1);
      ChooseSymmetric(n, k);
    }
  }

  // ---------------------------------------------------------------- the loop

  /** Each coefficient is the next binomial coefficient, so the loop adds up the exact tail. */
  method SignTestPValue(worse: nat, better: nat) returns (p: real)
    ensures p == PValue(worse, better)
  {
    var n := worse + better;
    if n == 0 {
      return 1.0;
    }
    var k := Min(worse, better);
    var tail := 0;
    var coefficient := 1;
    var i := 0;
    while i <= k
      invariant 0 <= i <= k + 1
      invariant coefficient == Choose(n, if i == 0 then 0 else i - 1)
      invariant tail == if i == 0 then 0 else Tail(n, i - 1)
    {
      if i > 0 {
        ChooseStep(n, i);
        assert coefficient * (n - i + 1) == Choose(n, i) * i;
        assert (Choose(n, i) * i) % i == 0
          && (Choose(n, i) * i) / i == Choose(n, i) by { DivideProduct(Choose(n, i), i); }
        coefficient := (coefficient * (n - i + 1)) / i;
      }
      tail := tail + coefficient;
      i := i + 1;
    }
    p := (2 * tail) as real / Pow2(n) as real;
    return if p < 1.0 then p else 1.0;
  }

  lemma DivideProduct(a: nat, b: nat)
    requires b > 0
    ensures (a * b) % b == 0 && (a * b) / b == a
  {
    var q, r := (a * b) / b, (a * b) % b;
    assert (a - q) * b == r;
    if a > q {
      AtLeast(a - q, b);
    } else if a < q {
      AtLeast(q - a, b);
    }
  }

  lemma AtLeast(x: int, b: nat)
    requires x >= 1
    ensures x * b >= b
  {
    assert (x - 1) * b >= 0;
  }

  // ---------------------------------------------------------------- what the value means

  /** Counts, over every way the remaining `m` signs can fall, the outcomes at least as extreme as k. */
  function Extreme(m: nat, k: nat, worse: nat, better: nat): nat {
    if m == 0 then if Min(worse, better) <= k then 1 else 0
    else Extreme(m - 1, k, worse + 1, better) + Extreme(m - 1, k, worse, better + 1)
  }

  /** The signs that may still point one way without passing k. */
  function Below(m: nat, k: nat, used: nat): nat {
    if used > k then 0 else Tail(m, k - used)
  }

  /** Below the middle, an outcome is extreme on one side or on the other, never on both. */
  lemma {:induction false} ExtremeSplits(m: nat, k: nat, worse: nat, better: nat)
    requires 2 * k < worse + better + m
    ensures Extreme(m, k, worse, better) == Below(m, k, worse) + Below(m, k, better)
  {
    if m > 0 {
      ExtremeSplits(m - 1, k, worse + 1, better);
      ExtremeSplits(m - 1, k, worse, better + 1);
      if worse <= k { TailPascal(m, k - worse); }
      if better <= k { TailPascal(m, k - better); }
    } else {
      TailOfNone(if worse <= k then k - worse else 0);
      TailOfNone(if better <= k then k - better else 0);
    }
  }

  lemma {:induction false} TailOfNone(k: nat)
    ensures Tail(0, k) == 1
  {
    if k > 0 { TailOfNone(k - 1); }
  }

  lemma {:induction false} ExtremeAll(m: nat, k: nat, worse: nat, better: nat)
    requires 2 * k >= worse + better + m
    ensures Extreme(m, k, worse, better) == Pow2(m)
  {
    if m > 0 {
      ExtremeAll(m - 1, k, worse + 1, better);
      ExtremeAll(m - 1, k, worse, better + 1);
    }
  }

  lemma ExtremeCount(n: nat, k: nat)
    requires 2 * k <= n
    ensures Extreme(n, k, 0, 0) == Min(2 * Tail(n, k), Pow2(n))
  {
    if 2 * k == n {
      ExtremeAll(n, k, 0, 0);
      if n > 0 {
        TailReflects(n, k);
        TailMonotone(n, k - 1, k);
      }
    } else {
      ExtremeSplits(n, k, 0, 0);
      TailReflects(n, k);
      TailMonotone(n, k, n - k - 1);
    }
  }

  /** The p-value is the share of all sign patterns that are at least as lopsided as the observed one. */
  lemma PValueIsExact(worse: nat, better: nat)
    ensures PValue(worse, better)
         == Extreme(worse + better, Min(worse, better), 0, 0) as real / Pow2(worse + better) as real
  {
    var n, k := worse + better, Min(worse, better);
    ExtremeCount(n, k);
    assert n == 0 ==> Pow2(n) == 1 && Tail(n, k) == 1;
    hide Tail, Extreme, Pow2;
    Ratio(2 * Tail(n, k), Pow2(n));
  }

  lemma Ratio(a: nat, d: nat)
    requires d >= 1
    ensures a < d ==> a as real / d as real < 1.0
    ensures a >= d ==> a as real / d as real >= 1.0
    ensures d as real / d as real == 1.0
  {}

  lemma PValueBounds(worse: nat, better: nat)
    ensures 0.0 < PValue(worse, better) <= 1.0
    ensures worse + better > 0 ==> PValue(worse, better) >= 2.0 / Pow2(worse + better) as real
  {
    var n, k := worse + better, Min(worse, better);
    TailMonotone(n, 0, k);
    Quotient(2, 2 * Tail(n, k), Pow2(n));
    if n > 0 {
      assert Pow2(n) >= 2;
      hide Tail, Pow2, Min;
      Quotient(2, Pow2(n), Pow2(n));
      Ratio(Pow2(n), Pow2(n));
    }
  }

  lemma PValueOfTie(k: nat)
    ensures PValue(k, k) == 1.0
  {
    var n := 2 * k;
    if n > 0 {
      TailReflects(n, k);
      TailMonotone(n, k - 1, k);
      assert 2 * Tail(n, k) >= Pow2(n);
      hide Tail, Pow2;
      Ratio(2 * Tail(n, k), Pow2(n));
    }
  }

  lemma PValueMonotone(w: nat, b: nat, worse: nat, better: nat)
    requires w + b == worse + better && Min(w, b) <= Min(worse, better)
    ensures PValue(w, b) <= PValue(worse, better)
  {
    var n := w + b;
    TailMonotone(n, Min(w, b), Min(worse, better));
    hide Tail, Pow2, Min;
    Quotient(2 * Tail(n, Min(w, b)), 2 * Tail(n, Min(worse, better)), Pow2(n));
  }

  /** Bounds, symmetry, and monotonicity in the rarer sign for a fixed number of pairs. */
  lemma PValueLaws(worse: nat, better: nat)
    ensures 0.0 < PValue(worse, better) <= 1.0
    ensures worse + better > 0 ==> PValue(worse, better) >= 2.0 / Pow2(worse + better) as real
    ensures PValue(worse, better) == PValue(better, worse)
    ensures worse == better ==> PValue(worse, better) == 1.0
    ensures forall w, b :: 0 <= w && 0 <= b && w + b == worse + better && Min(w, b) <= Min(worse, better) ==>
              PValue(w, b) <= PValue(worse, better)
  {
    PValueBounds(worse, better);
    assert Min(worse, better) == Min(better, worse) && worse + better == better + worse;
    if worse == better { PValueOfTie(worse); }
    hide Tail, Pow2, Min;
    forall w, b | 0 <= w && 0 <= b && w + b == worse + better && Min(w, b) <= Min(worse, better)
      ensures PValue(w, b) <= PValue(worse, better)
    {
      hide PValue;
      PValueMonotone(w, b, worse, better);
    }
  }

  lemma Quotient(a: nat, b: nat, d: nat)
    requires a <= b && d >= 1
    ensures a as real / d as real <= b as real / d as real
    ensures a > 0 ==> a as real / d as real > 0.0
  {}

  /** At the 5% level no direction can be reported with fewer than six discordant pairs; six can suffice. */
  lemma SixPairsNeeded(worse: nat, better: nat)
    ensures PValue(worse, better) < 0.05 ==> worse + better >= 6
    ensures PValue(0, 6) < 0.05
  {
    SmallPowers();
    assert Tail(6, 0) == 1;
    assert PValue(0, 6) < 0.05;
    PValueLaws(worse, better);
    hide PValue, Tail, Pow2;
  }

  lemma SmallPowers()
    ensures Pow2(0) == 1 && Pow2(1) == 2 && Pow2(2) == 4 && Pow2(3) == 8 && Pow2(4) == 16 && Pow2(5) == 32
      && Pow2(6) == 64
  {}
}
