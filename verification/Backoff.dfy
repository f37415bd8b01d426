/**
The wait before a failed task may run again (`waitTimeSecondsInt` in IntoFailed).

The source writes `15 + retriesSoFar ^ 4 + (rand.Intn(30) * (retriesSoFar + 1))` and calls it
exponential. In Go `^` is exclusive or, binds like `+` and associates to the left, so the value is
`((15 + r) xor 4) + jitter * (r + 1)`. This module follows the code and says exactly how far it is
from its comment.
*/
module Backoff {

  /** rand.Intn(30) */
  type Jitter = j: int | 0 <= j < 30

  /** Bitwise exclusive or of two naturals. */
  function Xor(a: nat, b: nat): nat
    decreases a + b
  {
    if a == 0 then b
    else if b == 0 then a
    else (a % 2 + b % 2) % 2 + 2 * Xor(a / 2, b / 2)
  }

  function WaitSeconds(retriesSoFar: nat, jitter: Jitter): nat {
    Xor(15 + retriesSoFar, 4) + jitter * (retriesSoFar + 1)
  }

  /** The formula the comment refers to, with `^` read as a power. */
  function IntendedWaitSeconds(retriesSoFar: nat, jitter: Jitter): nat {
    15 + retriesSoFar * retriesSoFar * retriesSoFar * retriesSoFar + jitter * (retriesSoFar + 1)
  }

  /** a with the bit of weight 4 flipped. */
  function Flip4(a: nat): nat { if a % 8 < 4 then a + 4 else a - 4 }

  lemma {:induction false} XorHalves(a: nat, b: nat)
    requires a > 0 && b > 0
    ensures Xor(a, b) == (a % 2 + b % 2) % 2 + 2 * Xor(a / 2, b / 2)
  {
  }

  lemma {:induction false} XorOne(a: nat)
    ensures Xor(a, 1) == if a % 2 == 0 then a + 1 else a - 1
  {
    assert Xor(a / 2, 0) == a / 2;
  }

  lemma {:induction false} XorTwo(a: nat)
    ensures Xor(a, 2) == if a % 4 < 2 then a + 2 else a - 2
  {
    if a > 0 {
      XorOne(a / 2);
      XorHalves(a, 2);
      HalvesOfFour(a / 2, a % 2);
    }
  }

  lemma ModEight(q: nat, x: nat)
    requires x < 8
    ensures (8 * q + x) % 8 == x
  {
  }

  lemma ModFour(q: nat, x: nat)
    requires x < 4
    ensures (4 * q + x) % 4 == x
  {
  }

  /** The bit of weight 1 in half of a number is its bit of weight 2. */
  lemma HalvesOfFour(h: nat, r: nat)
    requires r < 2
    ensures (2 * h + r) % 4 < 2 <==> h % 2 == 0
  {
    var q, k := h / 2, h % 2;
    assert 2 * h + r == 4 * q + (2 * k + r);
    ModFour(q, 2 * k + r);
  }

  /** And one up. */
  lemma HalvesOfEight(h: nat, r: nat)
    requires r < 2
    ensures (2 * h + r) % 8 < 4 <==> h % 4 < 2
  {
    var q, k := h / 4, h % 4;
    assert 2 * h + r == 8 * q + (2 * k + r);
    ModEight(q, 2 * k + r);
  }

  lemma {:induction false} XorFour(a: nat)
    ensures Xor(a, 4) == Flip4(a)
  {
    hide Xor;
    if a == 0 {
      ZeroXor(4);
    } else {
      XorTwo(a / 2);
      XorHalves(a, 4);
      HalvesOfEight(a / 2, a % 2);
    }
  }

  lemma {:induction false} ZeroXor(b: nat)
    ensures Xor(0, b) == b
  {
  }

  /** Every wait after r earlier retries lies within these bounds, whatever the jitter. */
  lemma WaitBounds(r: nat, jitter: Jitter)
    ensures 11 + r <= WaitSeconds(r, jitter) <= 19 + r + 29 * (r + 1)
  {
    XorFour(15 + r);
    JitterBounds(jitter, r + 1);
  }

  lemma JitterBounds(jitter: Jitter, n: nat)
    ensures 0 <= jitter * n <= 29 * n
  {
    assert (29 - jitter) * n >= 0;
  }

  /** Each unit of jitter adds r + 1 seconds, to the wait that the exclusive or gives. */
  lemma JitterStretches(r: nat, jitter: Jitter)
    ensures WaitSeconds(r, 0) == Flip4(15 + r)
    ensures WaitSeconds(r, jitter) == WaitSeconds(r, 0) + jitter * (r + 1)
  {
    XorFour(15 + r);
  }

  /** The bounds are reached. */
  lemma WaitBoundsTight()
    ensures WaitSeconds(0, 0) == 11 + 0
    ensures WaitSeconds(1, 29) == 19 + 1 + 29 * 2
  {
    XorFour(15);
    XorFour(16);
  }

  /** The exclusive-or part grows by one, by nine, or drops by seven. */
  lemma FlipStep(a: nat)
    ensures Flip4(a + 1) - Flip4(a) == if a % 8 == 3 then -7 else if a % 8 == 7 then 9 else 1
  {
  }

  lemma NextWait(r: nat, jitter: Jitter)
    ensures WaitSeconds(r + 1, jitter) - WaitSeconds(r, jitter) == Flip4(16 + r) - Flip4(15 + r) + jitter
  {
    XorFour(15 + r);
    XorFour(15 + (r + 1));
    assert jitter * (r + 1 + 1) == jitter * (r + 1) + jitter;
  }

  /** With the same jitter the next wait is longer exactly when this condition holds; in particular
      the wait does not always grow. */
  lemma WaitGrowsExactlyWhen(r: nat, jitter: Jitter)
    ensures WaitSeconds(r + 1, jitter) > WaitSeconds(r, jitter) <==> r % 8 != 4 || jitter > 7
  {
    NextWait(r, jitter);
    FlipStep(15 + r);
    FifteenOn(r);
    hide WaitSeconds, Flip4;
  }

  lemma FifteenOn(r: nat)
    ensures (15 + r) % 8 == 3 <==> r % 8 == 4
  {
    var q, x := r / 8, r % 8;
    if x == 0 {
      ModEight(q + 1, 7);
    } else {
      assert 15 + r == 8 * (q + 2) + (x - 1);
      ModEight(q + 2, x - 1);
    }
  }

  /** A retry that waits less than the one before it. */
  lemma WaitShrinksOnce()
    ensures WaitSeconds(5, 0) < WaitSeconds(4, 0)
  {
    NextWait(4, 0);
  }

  lemma FourthPowerDominates(r: nat)
    requires r >= 2
    ensures r * r * r * r >= 8 * r
  {
    assert r * r >= 4;
    assert r * r * r >= 8 by { assert r * r * r == (r * r) * r; }
    assert r * r * r * r == (r * r * r) * r;
  }

  /** The code never computes the wait its comment describes. */
  lemma NeverTheIntendedWait(r: nat, jitter: Jitter)
    ensures WaitSeconds(r, jitter) != IntendedWaitSeconds(r, jitter)
  {
    XorFour(15 + r);
    var power, spread := r * r * r * r, jitter * (r + 1);
    if r >= 2 { FourthPowerDominates(r); }
    assert Xor(15 + r, 4) != 15 + power;
  }
}
