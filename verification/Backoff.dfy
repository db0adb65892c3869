/** Jittered, capped exponential backoff. Delays are reals, so rounding of floats is not modelled. */
module Backoff {

  /** `Math.random() * 2 - 1`. */
  type Jitter = j: real | -1.0 <= j < 1.0 witness 0.0

  /** The cap of `calcBackoff` and the cap that `handleRetry` puts on top of it, in milliseconds. */
  const MAX_DELAY: nat := 60_000
  const MAX_SLEEP: nat := 5_000

  function Pow(b: real, n: nat): real {
    if n == 0 then 1.0 else b * Pow(b, n - 1)
  }

  /** `Math.round`. */
  function Round(x: real): int {
    (x + 0.5).Floor
  }

  function Ceiling(x: real): int {
    -(-x).Floor
  }

  function Scale(base: nat, x: real): real {
    base as real * x
  }

  function Delay(attempt: nat, base: nat, multiplier: real): real
    requires attempt >= 1
  {
    Scale(base, Pow(multiplier, attempt - 1))
  }

  function Jittered(delay: real, j: Jitter): real {
    delay + delay * 0.1 * j
  }

  function Capped(x: real, maxMs: nat): int {
    Round(if x <= maxMs as real then x else maxMs as real)
  }

  function CalcBackoff(attempt: nat, base: nat, multiplier: real, maxMs: nat, j: Jitter): int
    requires attempt >= 1
  {
    Capped(Jittered(Delay(attempt, base, multiplier), j), maxMs)
  }

  /** How long `handleRetry` sleeps under RETRY_WITH_DELAY. */
  function RetrySleep(attempt: nat, base: nat, multiplier: real, j: Jitter): int
    requires attempt >= 1
  {
    var delay := CalcBackoff(attempt, base, multiplier, MAX_DELAY, j);
    if delay <= 0 then 0 else if delay <= MAX_SLEEP then delay else MAX_SLEEP
  }

  lemma {:induction false} PowPositive(b: real, n: nat)
    requires b >= 0.0
    ensures Pow(b, n) >= 0.0
  {
    if n > 0 {
      PowPositive(b, n - 1);
    }
  }

  /** With a factor of at least `f` a step, the later power is at least `f` times the earlier. */
  lemma {:induction false} PowGrows(b: real, f: real, m: nat, n: nat)
    requires b >= f >= 1.0 && m < n
    ensures Pow(b, n) >= f * Pow(b, m)
  {
    PowPositive(b, n - 1);
    if n - 1 == m {
      ProductMonotone(b, f, Pow(b, m));
    } else {
      PowGrows(b, f, m, n - 1);
      ProductMonotone(b, 1.0, Pow(b, n - 1));
    }
  }

  lemma ProductMonotone(x: real, y: real, z: real)
    requires x >= y && z >= 0.0
    ensures x * z >= y * z
  {
  }

  lemma ProductNonNegative(x: real, y: real)
    requires x >= 0.0 && y >= 0.0
    ensures x * y >= 0.0
  {
  }

  lemma JitteredBounds(delay: real, j: Jitter)
    requires delay >= 0.0
    ensures 0.9 * delay <= Jittered(delay, j) <= 1.1 * delay
  {
    var d := delay * 0.1;
    ProductNonNegative(d, 1.0 - j);
    ProductNonNegative(d, 1.0 + j);
    Distributes(d, 1.0, j);
    Distributes(d, 1.0, 0.0 - j);
  }

  lemma DelayPositive(attempt: nat, base: nat, multiplier: real)
    requires attempt >= 1 && multiplier >= 0.0
    ensures Delay(attempt, base, multiplier) >= 0.0
  {
    PowPositive(multiplier, attempt - 1);
  }

  lemma CappedBounds(x: real, maxMs: nat, lo: real, hi: real)
    requires 0.0 <= lo <= x <= hi
    ensures var d := Capped(x, maxMs);
            && 0 <= d <= maxMs
            && d <= Ceiling(hi)
            && d as real <= hi + 0.5
            && (d >= lo.Floor || d == maxMs)
  {
  }

  /** The delay lies in [0, maxMs] and within ten percent of the uncapped delay. */
  lemma BackoffBounds(attempt: nat, base: nat, multiplier: real, maxMs: nat, j: Jitter)
    requires attempt >= 1 && multiplier >= 0.0
    ensures var d := CalcBackoff(attempt, base, multiplier, maxMs, j);
            var delay := base as real * Pow(multiplier, attempt - 1);
            && 0 <= d <= maxMs
            && d <= Ceiling(1.1 * delay)
            && d as real <= 1.1 * delay + 0.5
            && (d >= (0.9 * delay).Floor || d == maxMs)
  {
    var delay := Delay(attempt, base, multiplier);
    assert delay == base as real * Pow(multiplier, attempt - 1);
    hide Delay, Jittered, Capped;
    DelayPositive(attempt, base, multiplier);
    JitteredBounds(delay, j);
    CappedBounds(Jittered(delay, j), maxMs, 0.9 * delay, 1.1 * delay);
  }

  lemma DelayGrows(a: nat, b: nat, base: nat, multiplier: real)
    requires 1 <= a < b && 9.0 * multiplier >= 11.0
    ensures 0.0 <= 11.0 * Delay(a, base, multiplier) <= 9.0 * Delay(b, base, multiplier)
  {
    PowGrows(multiplier, 11.0 / 9.0, a - 1, b - 1);
    PowPositive(multiplier, a - 1);
    Scaled(base as real, Pow(multiplier, a - 1), Pow(multiplier, b - 1));
  }

  lemma Scaled(x: real, p: real, q: real)
    requires x >= 0.0 && p >= 0.0 && q >= 11.0 / 9.0 * p
    ensures 0.0 <= 11.0 * (x * p) <= 9.0 * (x * q)
  {
  }

  /** With a multiplier of at least 11/9 no choice of jitters makes a later delay the shorter one. */
  lemma BackoffNeverShrinks(a: nat, b: nat, base: nat, multiplier: real, maxMs: nat, j: Jitter, k: Jitter)
    requires 1 <= a < b && 9.0 * multiplier >= 11.0
    ensures CalcBackoff(a, base, multiplier, maxMs, j) <= CalcBackoff(b, base, multiplier, maxMs, k)
  {
    hide Delay, Jittered;
    var da, db := Delay(a, base, multiplier), Delay(b, base, multiplier);
    DelayGrows(a, b, base, multiplier);
    JitteredBounds(da, j);
    JitteredBounds(db, k);
    assert Jittered(da, j) <= Jittered(db, k);
  }

  /** Below 11/9 the jitter can win: with base 1000 and multiplier 1.2 the second delay is shorter. */
  lemma BackoffCanShrink()
    ensures CalcBackoff(2, 1000, 1.2, MAX_DELAY, -1.0) < CalcBackoff(1, 1000, 1.2, MAX_DELAY, 0.9)
  {
  }

  /** 11/9 is the exact bound: before capping and rounding, successive delays keep their order for all
      jitters iff the multiplier is at least 11/9. */
  lemma JitterKeepsOrder(a: nat, base: nat, multiplier: real)
    requires a >= 1 && base > 0 && multiplier >= 1.0
    ensures var da, db := Delay(a, base, multiplier), Delay(a + 1, base, multiplier);
            (forall j: Jitter, k: Jitter :: Jittered(da, j) <= Jittered(db, k)) <==> 9.0 * multiplier >= 11.0
  {
    var da, db := Delay(a, base, multiplier), Delay(a + 1, base, multiplier);
    if 9.0 * multiplier >= 11.0 {
      DelayGrows(a, a + 1, base, multiplier);
      hide Delay, Jittered;
      forall j: Jitter, k: Jitter ensures Jittered(da, j) <= Jittered(db, k) {
        JitteredBounds(da, j);
        JitteredBounds(db, k);
      }
    } else {
      NextDelay(a, base, multiplier);
      hide Delay;
      JitterWins(da, multiplier);
      assert !(Jittered(da, Between(multiplier)) <= Jittered(db, -1.0));
    }
  }

  /** The jitter that takes a delay halfway between 0.9 times the next one and 1.1 times itself. */
  function Between(multiplier: real): Jitter
    requires 1.0 <= multiplier && 9.0 * multiplier < 11.0
  {
    4.5 * multiplier - 4.5
  }

  lemma JitterWins(d: real, multiplier: real)
    requires d > 0.0 && 1.0 <= multiplier && 9.0 * multiplier < 11.0
    ensures Jittered(multiplier * d, -1.0) < Jittered(d, Between(multiplier))
  {
    var gap := 0.55 - 0.45 * multiplier;
    assert Jittered(d, Between(multiplier)) == d * (0.55 + 0.45 * multiplier);
    assert Jittered(multiplier * d, -1.0) == d * (0.9 * multiplier);
    Distributes(d, 0.9 * multiplier, gap);
    ProductPositive(d, gap);
  }

  lemma ProductPositive(x: real, y: real)
    requires x > 0.0 && y > 0.0
    ensures x * y > 0.0
  {
  }

  lemma {:induction false} PowAtLeastOne(b: real, n: nat)
    requires b >= 1.0
    ensures Pow(b, n) >= 1.0
  {
    if n > 0 {
      PowAtLeastOne(b, n - 1);
      ProductMonotone(b, 1.0, Pow(b, n - 1));
    }
  }

  lemma NextDelay(a: nat, base: nat, multiplier: real)
    requires a >= 1 && base > 0 && multiplier >= 1.0
    ensures Delay(a, base, multiplier) > 0.0
    ensures Delay(a + 1, base, multiplier) == multiplier * Delay(a, base, multiplier)
  {
    PowAtLeastOne(multiplier, a - 1);
    ProductPositive(base as real, Pow(multiplier, a - 1));
    assert Pow(multiplier, a) == multiplier * Pow(multiplier, a - 1);
  }

  /** The longest delay that jitter can make of `d` milliseconds; the upper end of the jitter is open. */
  function Longest(d: real, maxMs: nat): int {
    if 1.1 * d > maxMs as real then maxMs else Ceiling(1.1 * d - 0.5)
  }

  function Shortest(d: real, maxMs: nat): int {
    Capped(0.9 * d, maxMs)
  }

  /** Every value in [0.9 d, 1.1 d) is reached by some jitter. */
  lemma JitterReaches(d: real, x: real) returns (j: Jitter)
    requires d > 0.0 && 0.9 * d <= x < 1.1 * d
    ensures Jittered(d, j) == x
  {
    var tenth := d * 0.1;
    var q := (x - d) / tenth;
    assert tenth * q == x - d;
    assert -1.0 <= q < 1.0 by {
      if q < -1.0 {
        ProductPositive(tenth, -1.0 - q);
        Distributes(tenth, -1.0, 0.0 - q);
      }
      if q >= 1.0 {
        ProductNonNegative(tenth, q - 1.0);
        Distributes(tenth, q, -1.0);
      }
    }
    j := q;
  }

  /** Jitter turns `d` into exactly the delays from `Shortest` to `Longest`; both ends are reached. */
  lemma JitterRange(d: real, maxMs: nat)
    requires d > 0.0
    ensures forall j: Jitter :: Shortest(d, maxMs) <= Capped(Jittered(d, j), maxMs) <= Longest(d, maxMs)
    ensures exists j: Jitter :: Capped(Jittered(d, j), maxMs) == Shortest(d, maxMs)
    ensures exists j: Jitter :: Capped(Jittered(d, j), maxMs) == Longest(d, maxMs)
  {
    forall j: Jitter
      ensures Shortest(d, maxMs) <= Capped(Jittered(d, j), maxMs) <= Longest(d, maxMs)
    {
      JitterInside(d, j);
      hide Jittered;
    }
    var low := JitterReaches(d, 0.9 * d);
    assert Capped(Jittered(d, low), maxMs) == Shortest(d, maxMs);
    var edge := if 1.1 * d > maxMs as real then maxMs as real else Longest(d, maxMs) as real - 0.5;
    var high := JitterReaches(d, if edge <= 0.9 * d then 0.9 * d else edge);
    assert Capped(Jittered(d, high), maxMs) == Longest(d, maxMs);
  }

  lemma JitterInside(d: real, j: Jitter)
    requires d > 0.0
    ensures 0.9 * d <= Jittered(d, j) < 1.1 * d
  {
    JitteredBounds(d, j);
    ProductPositive(d * 0.1, 1.0 - j);
    Distributes(d * 0.1, 1.0, 0.0 - j);
  }

  /** The exact condition for the delays that are returned: attempt `b` never waits shorter than attempt
      `a`, for all jitters, iff the longest delay of `a` is at most the shortest of `b`. */
  lemma BackoffKeepsOrder(a: nat, b: nat, base: nat, multiplier: real, maxMs: nat)
    requires a >= 1 && b >= 1 && base > 0 && multiplier >= 1.0
    ensures (forall j: Jitter, k: Jitter ::
               CalcBackoff(a, base, multiplier, maxMs, j) <= CalcBackoff(b, base, multiplier, maxMs, k))
            <==> Longest(Delay(a, base, multiplier), maxMs) <= Shortest(Delay(b, base, multiplier), maxMs)
  {
    NextDelay(a, base, multiplier);
    NextDelay(b, base, multiplier);
    var da, db := Delay(a, base, multiplier), Delay(b, base, multiplier);
    JitterRange(da, maxMs);
    JitterRange(db, maxMs);
    hide Delay, Jittered, Capped, Longest, Shortest;
    var high: Jitter :| Capped(Jittered(da, high), maxMs) == Longest(da, maxMs);
    var low: Jitter :| Capped(Jittered(db, low), maxMs) == Shortest(db, maxMs);
    assert CalcBackoff(a, base, multiplier, maxMs, high) == Longest(da, maxMs);
    assert CalcBackoff(b, base, multiplier, maxMs, low) == Shortest(db, maxMs);
  }

  /** All sleeps of a step that fails on each of its first `n` attempts. */
  function TotalSleep(n: nat, base: nat, multiplier: real, j: nat -> Jitter): int {
    if n == 0 then 0 else TotalSleep(n - 1, base, multiplier, j) + RetrySleep(n, base, multiplier, j(n))
  }

  function Geometric(m: real, n: nat): real {
    if n == 0 then 0.0 else Geometric(m, n - 1) + Pow(m, n - 1)
  }

  lemma {:induction false} GeometricClosed(m: real, n: nat)
    ensures (m - 1.0) * Geometric(m, n) == Pow(m, n) - 1.0
  {
    if n > 0 {
      GeometricClosed(m, n - 1);
    }
  }

  /** A step sleeps at most 5 s a retry. */
  lemma {:induction false} TotalSleepCapped(n: nat, base: nat, multiplier: real, j: nat -> Jitter)
    requires multiplier >= 0.0
    ensures 0 <= TotalSleep(n, base, multiplier, j) <= 5000 * n
  {
    if n > 0 {
      TotalSleepCapped(n - 1, base, multiplier, j);
      SleepBounds(n, base, multiplier, j(n));
    }
  }

  /** The total sleep is at most the jittered geometric sum plus rounding. */
  lemma {:induction false} TotalSleepGeometric(n: nat, base: nat, multiplier: real, j: nat -> Jitter)
    requires multiplier >= 0.0
    ensures TotalSleep(n, base, multiplier, j) as real <= 1.1 * Scale(base, Geometric(multiplier, n)) + 0.5 * n as real
  {
    if n > 0 {
      TotalSleepGeometric(n - 1, base, multiplier, j);
      SleepBounds(n, base, multiplier, j(n));
      ScaleAdds(base, Geometric(multiplier, n - 1), Pow(multiplier, n - 1));
      hide Scale, RetrySleep, Pow;
    } else {
      assert Scale(base, 0.0) == 0.0;
    }
  }

  lemma {:induction false} GeometricGrows(base: nat, m: real, k: nat, n: nat)
    requires m >= 0.0 && k <= n
    ensures Scale(base, Geometric(m, k)) <= Scale(base, Geometric(m, n))
  {
    if k < n {
      GeometricGrows(base, m, k, n - 1);
      PowPositive(m, n - 1);
      ScaleAdds(base, Geometric(m, n - 1), Pow(m, n - 1));
      ProductNonNegative(base as real, Pow(m, n - 1));
    }
  }

  lemma ScaleAdds(base: nat, x: real, y: real)
    ensures Scale(base, x + y) == Scale(base, x) + Scale(base, y)
  {
  }

  /** The least that attempt `a` sleeps: ninety percent of its delay, or 5 s if that is less. */
  function LeastSleep(a: nat, base: nat, multiplier: real): int
    requires a >= 1
  {
    var low := (0.9 * (base as real * Pow(multiplier, a - 1))).Floor;
    if low <= 5000 then low else 5000
  }

  /** One sleep, from below and from above, for every jitter. */
  lemma SleepBounds(attempt: nat, base: nat, multiplier: real, j: Jitter)
    requires attempt >= 1 && multiplier >= 0.0
    ensures var slept := RetrySleep(attempt, base, multiplier, j);
            && 0 <= slept <= 5000
            && slept >= LeastSleep(attempt, base, multiplier)
            && slept as real <= 1.1 * Scale(base, Pow(multiplier, attempt - 1)) + 0.5
  {
    hide CalcBackoff, Pow;
    BackoffBounds(attempt, base, multiplier, MAX_DELAY, j);
    DelayPositive(attempt, base, multiplier);
  }

  function LeastTotal(n: nat, base: nat, multiplier: real): int {
    if n == 0 then 0 else LeastTotal(n - 1, base, multiplier) + LeastSleep(n, base, multiplier)
  }

  /** The sleeps of `n` failed attempts add up to at least the sum of the least ones. */
  lemma {:induction false} TotalSleepAtLeast(n: nat, base: nat, multiplier: real, j: nat -> Jitter)
    requires multiplier >= 0.0
    ensures TotalSleep(n, base, multiplier, j) >= LeastTotal(n, base, multiplier)
  {
    if n > 0 {
      TotalSleepAtLeast(n - 1, base, multiplier, j);
      SleepBounds(n, base, multiplier, j(n));
    }
  }

  /** As long as no delay reaches the cap, that is ninety percent of the geometric sum, less rounding. */
  lemma {:induction false} LeastTotalGeometric(n: nat, base: nat, multiplier: real)
    requires multiplier >= 1.0
    requires n > 0 ==> 0.9 * Scale(base, Pow(multiplier, n - 1)) <= 5000.0
    ensures LeastTotal(n, base, multiplier) as real >= 0.9 * Scale(base, Geometric(multiplier, n)) - n as real
  {
    if n > 0 {
      if n > 1 {
        ScaleGrows(base, multiplier, n - 1);
      }
      LeastTotalGeometric(n - 1, base, multiplier);
      ScaleAdds(base, Geometric(multiplier, n - 1), Pow(multiplier, n - 1));
      ScaleIs(base, Pow(multiplier, n - 1));
      hide Pow, Scale;
    } else {
      assert Scale(base, 0.0) == 0.0;
    }
  }

  lemma ScaleGrows(base: nat, multiplier: real, n: nat)
    requires multiplier >= 1.0 && n >= 1
    ensures Scale(base, Pow(multiplier, n - 1)) <= Scale(base, Pow(multiplier, n))
  {
    PowAtLeastOne(multiplier, n - 1);
    ProductMonotone(multiplier, 1.0, Pow(multiplier, n - 1));
    ProductMonotone(Pow(multiplier, n), Pow(multiplier, n - 1), base as real);
  }

  lemma ScaleIs(base: nat, x: real)
    ensures Scale(base, x) == base as real * x
  {
  }

  /** `Round` takes the nearest integer, and the upper one of two. */
  lemma RoundNearest(x: real)
    ensures x - 0.5 < Round(x) as real <= x + 0.5
  {
  }

  lemma Distributes(b: real, g: real, p: real)
    ensures b * (g + p) == b * g + b * p
  {
  }
}
