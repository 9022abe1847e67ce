/** The delay between attempts, in int64 nanoseconds. */
module Backoff {
  const SECOND := 1_000_000_000
  const CAP := 30 * SECOND

  function Pow2(n: nat): (p: nat)
    ensures p >= 1
  {
    if n == 0 then 1 else 2 * Pow2(n - 1)
  }

  predicate Int64(x: int) {
    -0x8000_0000_0000_0000 <= x < 0x8000_0000_0000_0000
  }

  /** Two's-complement wrap-around. */
  function Wrap64(x: int): (r: int)
    ensures Int64(r)
    ensures Int64(x) ==> r == x
  {
    var r := x % 0x1_0000_0000_0000_0000;
    if r >= 0x8000_0000_0000_0000 then r - 0x1_0000_0000_0000_0000 else r
  }

  function Shift(attempt: nat): nat {
    if attempt > 20 then 20 else attempt
  }

  function Min(a: int, b: int): int {
    if a <= b then a else b
  }

  function Delay(base: int, attempt: nat): int {
    Min(CAP, Wrap64(base * Pow2(Shift(attempt))))
  }

  /** How long the wait really is: a timer with a negative delay fires at once. */
  function Pause(base: int, attempt: nat): (p: nat)
    ensures p <= CAP
  {
    if Delay(base, attempt) < 0 then 0 else Delay(base, attempt)
  }

  lemma {:induction false} Pow2Monotone(m: nat, n: nat)
    requires m <= n
    ensures Pow2(m) <= Pow2(n)
  {
    if m == n {
    } else {
      Pow2Monotone(m, n - 1);
    }
  }

  lemma {:induction false} Pow2Values()
    ensures Pow2(20) == 1048576 && Pow2(21) == 2097152
  {
    assert Pow2(4) == 16;
    assert Pow2(8) == 256;
    assert Pow2(12) == 4096;
    assert Pow2(16) == 65536;
    assert Pow2(20) == 1048576;
  }

  lemma {:induction false} Times(b: nat, p: nat, q: nat)
    requires p <= q
    ensures b * p <= b * q
  {
  }

  lemma {:induction false} ShiftBound(attempt: nat)
    ensures 1 <= Pow2(Shift(attempt)) <= 1048576
  {
    Pow2Monotone(Shift(attempt), 20);
    Pow2Values();
  }

  lemma {:induction false} ProductFits(base: int, p: nat)
    requires -0x800_0000_0000 <= base < 0x800_0000_0000 && 1 <= p <= 1048576
    ensures Int64(base * p)
  {
    if base >= 0 {
      Times(base, 0, p);
      Times(base, p, 1048576);
    } else {
      var b: nat := -base;
      assert base * p == -(b * p);
      Times(b, 0, p);
      Times(b, p, 1048576);
    }
  }

  predicate Fits(base: int, attempt: nat) {
    Int64(base * Pow2(Shift(attempt)))
  }

  /** No retry count makes the product overflow, exactly for base delays below 2^43 ns. */
  lemma {:induction false} NeverOverflowsIff(base: int)
    ensures (forall attempt: nat :: Fits(base, attempt)) <==> -0x800_0000_0000 <= base < 0x800_0000_0000
  {
    if -0x800_0000_0000 <= base < 0x800_0000_0000 {
      forall attempt: nat
        ensures Fits(base, attempt)
      {
        ShiftBound(attempt);
        ProductFits(base, Pow2(Shift(attempt)));
      }
    } else {
      Pow2Values();
      assert !Fits(base, 20);
    }
  }

  lemma {:induction false} DelayExact(base: int, attempt: nat)
    requires -0x800_0000_0000 <= base < 0x800_0000_0000
    ensures Delay(base, attempt) == Min(CAP, base * Pow2(Shift(attempt)))
  {
    NeverOverflowsIff(base);
    assert Fits(base, attempt);
  }

  lemma {:induction false} DelaysNeverDecrease(base: nat, j: nat, k: nat)
    requires base < 0x800_0000_0000 && j <= k
    ensures 0 <= Delay(base, j) <= Delay(base, k) <= CAP
  {
    DelayExact(base, j);
    DelayExact(base, k);
    var p, q := Pow2(Shift(j)), Pow2(Shift(k));
    assert p <= q by {
      Pow2Monotone(Shift(j), Shift(k));
    }
    Times(base, 0, p);
    Times(base, p, q);
  }

  /** Capping the exponent changes nothing exactly when the capped exponent already passes 30 seconds. */
  lemma {:induction false} ShiftCapHarmlessIff(base: nat)
    requires base < 0x800_0000_0000
    ensures (forall k: nat :: Delay(base, k) == Min(CAP, base * Pow2(k))) <==> base == 0 || base >= 28611
  {
    if base == 0 || base >= 28611 {
      forall k: nat
        ensures Delay(base, k) == Min(CAP, base * Pow2(k))
      {
        DelayExact(base, k);
        if k > 20 {
          Pow2Values();
          Pow2Monotone(20, k);
          Times(base, 1048576, Pow2(k));
        }
      }
    } else {
      DelayExact(base, 21);
      Pow2Values();
      assert Delay(base, 21) != Min(CAP, base * Pow2(21));
    }
  }

  /** At 2^43 ns the product wraps to the most negative value and the wait disappears. */
  lemma {:induction false} OverflowMeansNoWait()
    ensures Delay(0x800_0000_0000, 20) < 0 && Pause(0x800_0000_0000, 20) == 0
  {
    Pow2Values();
  }
}
