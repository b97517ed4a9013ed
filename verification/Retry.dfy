/** `src/retry/strategy.rs`: when to retry and after how long; backoff over the reals. */
module Retry {
  import opened Wrappers
  import opened Durations

  datatype Jitter = NoJitter | Full | Half | Equal

  datatype Backoff = Backoff(maxAttempts: u32, initialDelay: Duration, maxDelay: Duration, rate: real, jitter: Jitter)

  datatype Strategy =
    | Exponential(backoff: Backoff, retryable: string -> bool)
    | Fixed(maxAttempts: u32)
    | Constant(maxAttempts: u32, delay: Duration)
    | Never

  /** Whether a failed attempt is followed by another one. */
  predicate ShouldRetry(s: Strategy, message: string, attemptsMade: nat) {
    match s
    case Exponential(b, retryable) => attemptsMade < b.maxAttempts && retryable(message)
    case Fixed(max) => attemptsMade < max
    case Constant(max, _) => attemptsMade < max
    case Never => false
  }

  function MaxAttempts(s: Strategy): nat {
    match s
    case Exponential(b, _) => b.maxAttempts
    case Fixed(max) => max
    case Constant(max, _) => max
    case Never => 0
  }

  // ----- Delays -----

  const I32_LIMIT: nat := 0x8000_0000

  /** `as i32` of a u32: values from 2^31 on wrap to negative ones. */
  function AsI32(n: u32): int {
    if n < I32_LIMIT then n else n - 0x1_0000_0000
  }

  function Pow(x: real, n: nat): real {
    if n == 0 then 1.0 else x * Pow(x, n - 1)
  }

  /** `powi`; a negative power of zero is infinite and has no value here. */
  function PowI(x: real, e: int): real
    requires e < 0 ==> Pow(x, -e) != 0.0
  {
    if e >= 0 then Pow(x, e) else 1.0 / Pow(x, -e)
  }

  function RMin(a: real, b: real): real { if a < b then a else b }

  function RMax(a: real, b: real): real { if a < b then b else a }

  function Exponent(attemptsMade: u32): int {
    AsI32(if attemptsMade == 0 then 0 else attemptsMade - 1)
  }

  function Product(d: real, p: real): real { d * p }

  function CapProduct(d: real, p: real, max: real): real {
    RMin(Product(d, p), max)
  }

  /** The delay before jitter; `min` turns an infinite or undefined product into the maximum. */
  function Capped(b: Backoff, attemptsMade: u32): real {
    var e := Exponent(attemptsMade);
    var max := b.maxDelay.ToSeconds() as real;
    if e < 0 && Pow(b.rate, -e) == 0.0 then max
    else CapProduct(b.initialDelay.ToSeconds() as real, PowI(b.rate, e), max)
  }

  /** The draws `random_range` may return for a capped delay. */
  predicate PossibleDraw(j: Jitter, capped: real, draw: real) {
    match j
    case NoJitter => true
    case Full => 0.0 <= draw <= capped
    case Half => capped / 2.0 <= draw <= capped
    case Equal => 0.0 <= draw <= capped / 2.0
  }

  function Jittered(j: Jitter, capped: real, draw: real): real {
    match j
    case NoJitter => capped
    case Full => draw
    case Half => draw
    case Equal => capped / 2.0 + draw
  }

  /** `round() as u32` of a value that is at least one. */
  function RoundToU32(x: real): u32
    requires x >= 1.0
  {
    Min((x + 0.5).Floor, U32_MAX)
  }

  /** `calculate_delay`, in seconds. */
  function Delay(b: Backoff, attemptsMade: u32, draw: real): u32 {
    RoundToU32(RMax(Jittered(b.jitter, Capped(b, attemptsMade), draw), 1.0))
  }

  lemma {:induction false} PowIsNonNegative(x: real, n: nat)
    requires x >= 0.0
    ensures Pow(x, n) >= 0.0
  {
    if n > 0 {
      PowIsNonNegative(x, n - 1);
    }
  }

  lemma CapProductGrows(d: real, p: real, q: real, max: real)
    requires 0.0 <= d && 0.0 <= max && p <= q
    ensures CapProduct(d, p, max) <= CapProduct(d, q, max) <= max
    ensures p >= 0.0 ==> 0.0 <= CapProduct(d, p, max)
  {
    assert d * p <= d * q;
  }

  lemma PowIIsNonNegative(x: real, e: int)
    requires x >= 0.0 && (e < 0 ==> Pow(x, -e) != 0.0)
    ensures PowI(x, e) >= 0.0
  {
    PowIsNonNegative(x, if e >= 0 then e else -e);
  }

  lemma {:induction false} CappedIsNonNegative(b: Backoff, attemptsMade: u32)
    requires b.rate >= 0.0
    ensures 0.0 <= Capped(b, attemptsMade) <= b.maxDelay.ToSeconds() as real
  {
    var e := Exponent(attemptsMade);
    if !(e < 0 && Pow(b.rate, -e) == 0.0) {
      var p := PowI(b.rate, e);
      PowIIsNonNegative(b.rate, e);
      CapProductGrows(b.initialDelay.ToSeconds() as real, p, p, b.maxDelay.ToSeconds() as real);
    }
  }

  /** Every delay is at least one second and at most the configured maximum (or one second). */
  lemma DelayIsBounded(b: Backoff, attemptsMade: u32, draw: real)
    requires b.rate >= 0.0 && b.maxDelay.ToSeconds() <= U32_MAX
    requires PossibleDraw(b.jitter, Capped(b, attemptsMade), draw)
    ensures 1 <= Delay(b, attemptsMade, draw) <= Max(1, b.maxDelay.ToSeconds())
  {
    CappedIsNonNegative(b, attemptsMade);
  }

  /** Half and equal jitter never take away more than half of the capped delay. */
  lemma {:induction false} JitterKeepsHalf(b: Backoff, attemptsMade: u32, draw: real)
    requires b.rate >= 0.0 && (b.jitter == Half || b.jitter == Equal)
    requires PossibleDraw(b.jitter, Capped(b, attemptsMade), draw)
    ensures Capped(b, attemptsMade) / 2.0
         <= Jittered(b.jitter, Capped(b, attemptsMade), draw) <= Capped(b, attemptsMade)
  {
    CappedIsNonNegative(b, attemptsMade);
  }

  // ----- Growth -----

  lemma {:induction false} PowGrows(x: real, m: nat, n: nat)
    requires x >= 1.0 && m <= n
    ensures 1.0 <= Pow(x, m) <= Pow(x, n)
    decreases n
  {
    if m < n {
      PowGrows(x, m, n - 1);
    } else if m > 0 {
      PowGrows(x, m - 1, n - 1);
    }
  }

  lemma InverseShrinks(a: real, b: real)
    requires 1.0 <= a <= b
    ensures 0.0 < 1.0 / b <= 1.0 / a <= 1.0
  {
  }

  lemma PowIGrows(x: real, e: int, f: int)
    requires x >= 1.0 && e <= f
    ensures e < 0 ==> Pow(x, -e) != 0.0
    ensures f < 0 ==> Pow(x, -f) != 0.0
    ensures 0.0 < PowI(x, e) <= PowI(x, f)
  {
    if f < 0 {
      PowGrows(x, -f, -e);
      InverseShrinks(Pow(x, -f), Pow(x, -e));
    } else if e < 0 {
      PowGrows(x, 0, -e);
      PowGrows(x, 0, f);
      InverseShrinks(1.0, Pow(x, -e));
    } else {
      PowGrows(x, 0, e);
      PowGrows(x, e, f);
    }
  }

  lemma CappedGrows(b: Backoff, m: u32, n: u32)
    requires b.rate >= 1.0 && Exponent(m) <= Exponent(n)
    ensures Capped(b, m) <= Capped(b, n)
  {
    var e, f := Exponent(m), Exponent(n);
    PowIGrows(b.rate, e, f);
    CapProductGrows(b.initialDelay.ToSeconds() as real, PowI(b.rate, e), PowI(b.rate, f), b.maxDelay.ToSeconds() as real);
  }

  lemma RoundGrows(x: real, y: real)
    requires 1.0 <= x <= y
    ensures RoundToU32(x) <= RoundToU32(y)
  {
  }

  /** Where the exponent does not wrap, the delay never decreases. */
  lemma {:induction false} DelayGrows(b: Backoff, m: u32, n: u32)
    requires b.rate >= 1.0 && b.jitter == NoJitter
    requires m <= n && (n <= I32_LIMIT || m > I32_LIMIT)
    ensures Delay(b, m, 0.0) <= Delay(b, n, 0.0)
  {
    CappedGrows(b, m, n);
    RoundGrows(RMax(Capped(b, m), 1.0), RMax(Capped(b, n), 1.0));
  }

  // ----- What the delays are -----

  /** The first delay is the initial one, as far as the maximum allows. */
  lemma FirstDelay(b: Backoff)
    ensures Capped(b, 0) == Capped(b, 1) == RMin(b.initialDelay.ToSeconds() as real, b.maxDelay.ToSeconds() as real)
  {
  }

  lemma CapAfterRate(d: real, p: real, rate: real, q: real, max: real)
    requires d >= 0.0 && p >= 0.0 && rate >= 1.0 && max >= 0.0 && q == Product(rate, p)
    ensures CapProduct(d, q, max) == RMin(Product(CapProduct(d, p, max), rate), max)
  {
    assert Product(d, q) == Product(Product(d, p), rate);
    if Product(d, p) >= max {
      assert Product(max, rate) >= max && Product(Product(d, p), rate) >= max;
    }
  }

  lemma CappedAt(b: Backoff, n: u32, p: real)
    requires 1 <= n <= I32_LIMIT && p == Pow(b.rate, n - 1)
    ensures Capped(b, n) == CapProduct(b.initialDelay.ToSeconds() as real, p, b.maxDelay.ToSeconds() as real)
  {
  }

  lemma PowStep(x: real, n: nat)
    requires n >= 1
    ensures Pow(x, n) == Product(x, Pow(x, n - 1))
  {
  }

  /** Each later delay is the one before times the rate, as far as the maximum allows. */
  lemma NextDelay(b: Backoff, n: u32)
    requires b.rate >= 1.0 && 1 <= n < I32_LIMIT
    ensures Capped(b, n + 1) == RMin(Product(Capped(b, n), b.rate), b.maxDelay.ToSeconds() as real)
  {
    var p, q := Pow(b.rate, n - 1), Pow(b.rate, n);
    PowIsNonNegative(b.rate, n - 1);
    PowStep(b.rate, n);
    CappedAt(b, n, p);
    CappedAt(b, n + 1, q);
    CapAfterRate(b.initialDelay.ToSeconds() as real, p, b.rate, q, b.maxDelay.ToSeconds() as real);
  }

  /** A delay is its value in whole seconds, at least one: the nearest, and of two the larger. */
  lemma DelayIsNearest(b: Backoff, attemptsMade: u32, draw: real)
    ensures var x := RMax(Jittered(b.jitter, Capped(b, attemptsMade), draw), 1.0);
            var s := Delay(b, attemptsMade, draw) as real;
            if x < U32_MAX as real + 0.5 then s - 0.5 <= x < s + 0.5 else s == U32_MAX as real
  {
  }

  /** The values jitter can make of a delay: all up to it, or all in its upper half. */
  lemma JitterRangesExactly(j: Jitter, capped: real, x: real)
    requires capped >= 0.0
    ensures (exists draw: real :: PossibleDraw(j, capped, draw) && Jittered(j, capped, draw) == x)
       <==> match j
            case NoJitter => x == capped
            case Full => 0.0 <= x <= capped
            case Half => capped / 2.0 <= x <= capped
            case Equal => capped / 2.0 <= x <= capped
  {
    var draw := if j == Equal then x - capped / 2.0 else x;
    if PossibleDraw(j, capped, draw) {
      assert Jittered(j, capped, draw) == if j == NoJitter then capped else x;
    }
  }

  /** Five seconds doubled up to five minutes. */
  lemma DoublingDelays()
    ensures var b := Backoff(10, Duration(0, 0, 0, 5), Duration(0, 0, 5, 0), 2.0, NoJitter);
            && Delay(b, 1, 0.0) == 5 && Delay(b, 2, 0.0) == 10 && Delay(b, 3, 0.0) == 20 && Delay(b, 4, 0.0) == 40
            && Delay(b, 5, 0.0) == 80 && Delay(b, 6, 0.0) == 160 && Delay(b, 7, 0.0) == 300 && Delay(b, 8, 0.0) == 300
  {
    var b := Backoff(10, Duration(0, 0, 0, 5), Duration(0, 0, 5, 0), 2.0, NoJitter);
    FirstDelay(b);
    NextDelay(b, 1);
    NextDelay(b, 2);
    NextDelay(b, 3);
    NextDelay(b, 4);
    NextDelay(b, 5);
    NextDelay(b, 6);
    NextDelay(b, 7);
  }

  /** The delays the strategy gives, one after each failed attempt it retries, never decrease. */
  ghost predicate NeverDecreases(b: Backoff) {
    forall m: u32, n: u32 :: m <= n < b.maxAttempts ==> Delay(b, m, 0.0) <= Delay(b, n, 0.0)
  }

  /**
   They never decrease exactly if the strategy gives up before the exponent wraps, or the wrap,
   from attempt 2^31 to the next, does not show in the delays.
   */
  lemma {:induction false} NeverDecreasesExactly(b: Backoff)
    requires b.rate >= 1.0 && b.jitter == NoJitter
    ensures NeverDecreases(b)
       <==> b.maxAttempts <= I32_LIMIT + 1 || Delay(b, I32_LIMIT, 0.0) <= Delay(b, I32_LIMIT + 1, 0.0)
  {
    if b.maxAttempts <= I32_LIMIT + 1 || Delay(b, I32_LIMIT, 0.0) <= Delay(b, I32_LIMIT + 1, 0.0) {
      forall m: u32, n: u32 | m <= n < b.maxAttempts
        ensures Delay(b, m, 0.0) <= Delay(b, n, 0.0)
      {
        if m <= I32_LIMIT < n {
          DelayGrows(b, m, I32_LIMIT);
          DelayGrows(b, I32_LIMIT + 1, n);
        } else {
          DelayGrows(b, m, n);
        }
      }
    }
  }

  // ----- When the wrap shows -----

  lemma BernoulliStep(p: real, x: real, n: real)
    requires x >= 0.0 && n >= 0.0 && p >= 1.0 + n * x
    ensures (1.0 + x) * p >= 1.0 + (n + 1.0) * x
  {
    assert x * p >= x * 1.0;
  }

  /** Bernoulli's inequality. */
  lemma {:induction false} PowOutgrows(x: real, n: nat)
    requires x >= 0.0
    ensures Pow(1.0 + x, n) >= 1.0 + n as real * x
  {
    if n > 0 {
      PowOutgrows(x, n - 1);
      BernoulliStep(Pow(1.0 + x, n - 1), x, (n - 1) as real);
    }
  }

  lemma {:induction false} PowAdds(x: real, m: nat, n: nat)
    ensures Pow(x, m + n) == Pow(x, m) * Pow(x, n)
  {
    if m > 0 {
      PowAdds(x, m - 1, n);
    }
  }

  lemma SquareGrows(p: real, q: real)
    requires p >= q >= 0.0
    ensures p * p >= q * q
  {
    assert p * p >= q * p >= q * q;
  }

  lemma Doubles(rate: real, n: nat, low: real)
    requires low >= 0.0 && Pow(rate, n) >= low
    ensures Pow(rate, 2 * n) >= low * low
  {
    PowAdds(rate, n, n);
    SquareGrows(Pow(rate, n), low);
  }

  lemma GrowsAtLeast(n: real, x: real, y: real)
    requires n >= 0.0 && x >= y
    ensures n * x >= n * y
  {
  }

  const HALF_WAY: nat := I32_LIMIT / 2

  /** From a rate of a ten-millionth above one on, 2^31 attempts outgrow every delay that fits a `Duration`. */
  lemma LastPowersAreHuge(rate: real)
    requires rate >= 1.0000001
    ensures Pow(rate, HALF_WAY) >= 1_000_000_000.0
    ensures Pow(rate, I32_LIMIT) >= U32_MAX as real * 90_061.0
  {
    var n := I32_LIMIT / 16;
    PowOutgrows(rate - 1.0, n);
    GrowsAtLeast(n as real, rate - 1.0, 0.0000001);
    Doubles(rate, n, 14.0);
    Doubles(rate, 2 * n, 196.0);
    Doubles(rate, 4 * n, 38_416.0);
    Doubles(rate, 8 * n, 1_000_000_000.0);
  }

  lemma BeforeWrap(b: Backoff)
    requires b.rate >= 1.0000001 && b.initialDelay.ToSeconds() > 0 && b.maxDelay.ToSeconds() > 1
    ensures Capped(b, I32_LIMIT) >= 2.0
  {
    LastPowersAreHuge(b.rate);
    PowGrows(b.rate, HALF_WAY, I32_LIMIT - 1);
    assert Exponent(I32_LIMIT) == I32_LIMIT - 1;
    assert b.initialDelay.ToSeconds() as real * Pow(b.rate, I32_LIMIT - 1) >= 1.0 * 2.0;
  }

  lemma QuotientAtMostOne(x: real, y: real)
    requires 0.0 < x <= y
    ensures Product(x, 1.0 / y) <= 1.0
  {
    assert Product(x, 1.0 / y) == x / y;
  }

  lemma AfterWrap(b: Backoff)
    requires b.rate >= 1.0000001 && b.initialDelay.ToSeconds() > 0
    ensures Capped(b, I32_LIMIT + 1) <= 1.0
  {
    LastPowersAreHuge(b.rate);
    assert Exponent(I32_LIMIT + 1) == -(I32_LIMIT as int);
    QuotientAtMostOne(b.initialDelay.ToSeconds() as real, Pow(b.rate, I32_LIMIT));
  }

  /** Before the wrap the delay is at least two seconds, after it one. */
  lemma WrapShows(b: Backoff)
    requires b.rate >= 1.0000001 && b.jitter == NoJitter
    requires b.initialDelay.ToSeconds() > 0 && b.maxDelay.ToSeconds() > 1
    ensures Delay(b, I32_LIMIT + 1, 0.0) == 1 < Delay(b, I32_LIMIT, 0.0)
  {
    BeforeWrap(b);
    AfterWrap(b);
    RoundGrows(2.0, RMax(Capped(b, I32_LIMIT), 1.0));
  }

  predicate GivesUpBeforeWrap(b: Backoff) {
    b.maxAttempts <= I32_LIMIT + 1
  }

  predicate DelaysDoNotGrow(b: Backoff) {
    b.rate == 1.0 || b.initialDelay.ToSeconds() == 0 || b.maxDelay.ToSeconds() <= 1
  }

  lemma {:induction false} PowOfOne(n: nat)
    ensures Pow(1.0, n) == 1.0
  {
    if n > 0 {
      PowOfOne(n - 1);
    }
  }

  lemma CappedAtRateOne(b: Backoff, attemptsMade: u32)
    requires b.rate == 1.0
    ensures Capped(b, attemptsMade) == RMin(b.initialDelay.ToSeconds() as real, b.maxDelay.ToSeconds() as real)
  {
    var e := Exponent(attemptsMade);
    PowOfOne(if e < 0 then -e else e);
  }

  lemma CappedOfZero(b: Backoff, attemptsMade: u32)
    requires b.rate >= 1.0 && b.initialDelay.ToSeconds() == 0
    ensures Capped(b, attemptsMade) == 0.0
  {
    PowIGrows(b.rate, Exponent(attemptsMade), Exponent(attemptsMade));
  }

  /** Where nothing grows, or nothing above a second can be seen, the wrap does not show. */
  lemma WrapIsHidden(b: Backoff)
    requires b.rate >= 1.0 && b.jitter == NoJitter && DelaysDoNotGrow(b)
    ensures Delay(b, I32_LIMIT, 0.0) <= Delay(b, I32_LIMIT + 1, 0.0)
  {
    CappedIsNonNegative(b, I32_LIMIT);
    CappedIsNonNegative(b, I32_LIMIT + 1);
    if b.maxDelay.ToSeconds() > 1 {
      if b.rate == 1.0 {
        CappedAtRateOne(b, I32_LIMIT);
        CappedAtRateOne(b, I32_LIMIT + 1);
      } else {
        CappedOfZero(b, I32_LIMIT);
      }
    }
  }

  /**
   For a constant delay or a rate of at least 1.0000001: delays never decrease exactly
   with at most 2^31 + 1 attempts, a constant or zero delay, or a maximum of a second.
   */
  lemma NeverDecreasesForOrdinaryRates(b: Backoff)
    requires (b.rate == 1.0 || b.rate >= 1.0000001) && b.jitter == NoJitter
    ensures NeverDecreases(b) <==> GivesUpBeforeWrap(b) || DelaysDoNotGrow(b)
  {
    NeverDecreasesExactly(b);
    if DelaysDoNotGrow(b) {
      WrapIsHidden(b);
    } else {
      WrapShows(b);
    }
  }

  // ----- When the wrap shows, for every rate -----

  /** The largest delay that can come out: the maximum, as far as it fits 32 bits. */
  function Ceiling(max: nat): u32 {
    Min(max, U32_MAX)
  }

  /** The delays before the maximum is applied, at attempt 2^31 and at the next, where the exponent is -2^31. */
  function UncappedBefore(b: Backoff): real {
    Product(b.initialDelay.ToSeconds() as real, Pow(b.rate, I32_LIMIT - 1))
  }

  function UncappedAfter(b: Backoff): real
    requires Pow(b.rate, I32_LIMIT) != 0.0
  {
    Product(b.initialDelay.ToSeconds() as real, 1.0 / Pow(b.rate, I32_LIMIT))
  }

  /**
   A delay of `d` seconds that has grown to `x`, and one that has shrunk to `y`, come out the same:
   both as the maximum, or both as `d`.
   */
  predicate Unseen(d: nat, max: nat, x: real, y: real) {
    if Ceiling(max) <= d then y >= Ceiling(max) as real - 0.5
    else x < d as real + 0.5 && (d == 1 || y >= d as real - 0.5)
  }

  predicate WrapIsUnseen(b: Backoff)
    requires Pow(b.rate, I32_LIMIT) != 0.0
  {
    var d, max := b.initialDelay.ToSeconds(), b.maxDelay.ToSeconds();
    d == 0 || max <= 1 || Unseen(d, max, UncappedBefore(b), UncappedAfter(b))
  }

  function Rounded(capped: real): u32 {
    RoundToU32(RMax(capped, 1.0))
  }

  lemma ProductAtLeast(d: real, p: real)
    requires d >= 0.0 && p >= 1.0
    ensures Product(d, p) >= d
  {
  }

  lemma QuotientAtMost(d: real, p: real)
    requires d >= 0.0 && p >= 1.0
    ensures Product(d, 1.0 / p) <= d
  {
    InverseShrinks(1.0, p);
  }

  lemma RoundedAtLeast(x: real, max: nat, n: nat)
    requires 2 <= n <= Ceiling(max)
    ensures Rounded(RMin(x, max as real)) >= n <==> x >= n as real - 0.5
    ensures Rounded(RMin(x, max as real)) <= Ceiling(max)
  {
  }

  lemma UnseenExactly(d: nat, max: nat, x: real, y: real)
    requires d >= 1 && max >= 2 && y <= d as real <= x
    ensures Rounded(RMin(x, max as real)) <= Rounded(RMin(y, max as real)) <==> Unseen(d, max, x, y)
  {
    if Ceiling(max) <= d {
      RoundedAtLeast(x, max, Ceiling(max));
      RoundedAtLeast(y, max, Ceiling(max));
    } else {
      RoundedAtLeast(x, max, d + 1);
      RoundedAtLeast(y, max, d + 1);
      if d > 1 {
        RoundedAtLeast(x, max, d);
        RoundedAtLeast(y, max, d);
      }
    }
  }

  lemma BeforeIsUncapped(b: Backoff)
    requires b.rate >= 1.0
    ensures b.initialDelay.ToSeconds() as real <= UncappedBefore(b)
    ensures Capped(b, I32_LIMIT) == RMin(UncappedBefore(b), b.maxDelay.ToSeconds() as real)
  {
    PowGrows(b.rate, 0, I32_LIMIT - 1);
    ProductAtLeast(b.initialDelay.ToSeconds() as real, Pow(b.rate, I32_LIMIT - 1));
    assert Exponent(I32_LIMIT) == I32_LIMIT - 1;
  }

  lemma AfterIsUncapped(b: Backoff)
    requires b.rate >= 1.0
    ensures Pow(b.rate, I32_LIMIT) >= 1.0
    ensures UncappedAfter(b) <= b.initialDelay.ToSeconds() as real
    ensures Capped(b, I32_LIMIT + 1) == RMin(UncappedAfter(b), b.maxDelay.ToSeconds() as real)
  {
    PowGrows(b.rate, 0, I32_LIMIT);
    QuotientAtMost(b.initialDelay.ToSeconds() as real, Pow(b.rate, I32_LIMIT));
    assert Exponent(I32_LIMIT + 1) == -(I32_LIMIT as int);
  }

  lemma WrapExactly(b: Backoff)
    requires b.rate >= 1.0 && b.jitter == NoJitter
    ensures Pow(b.rate, I32_LIMIT) >= 1.0
    ensures Delay(b, I32_LIMIT, 0.0) <= Delay(b, I32_LIMIT + 1, 0.0) <==> WrapIsUnseen(b)
  {
    BeforeIsUncapped(b);
    AfterIsUncapped(b);
    if b.initialDelay.ToSeconds() == 0 || b.maxDelay.ToSeconds() <= 1 {
      WrapIsHidden(b);
    } else {
      UnseenExactly(b.initialDelay.ToSeconds(), b.maxDelay.ToSeconds(), UncappedBefore(b), UncappedAfter(b));
    }
  }

  /**
   In terms of the configuration alone: delays never decrease exactly if the strategy gives up
   before the exponent wraps, nothing above a second can be seen, or the rate is so near to one
   that 2^31 powers of it are lost in rounding.
   */
  lemma NeverDecreasesForConfiguration(b: Backoff)
    requires b.rate >= 1.0 && b.jitter == NoJitter
    ensures Pow(b.rate, I32_LIMIT) >= 1.0
    ensures NeverDecreases(b) <==> GivesUpBeforeWrap(b) || WrapIsUnseen(b)
  {
    NeverDecreasesExactly(b);
    WrapExactly(b);
  }

  /** A doubling strategy whose delay falls back from five minutes to one second at attempt 2^31 + 1. */
  lemma {:induction false} WrapMakesDelaysDecrease()
    ensures var b := Backoff(U32_MAX, Duration(0, 0, 0, 1), Duration(0, 0, 5, 0), 2.0, NoJitter);
            Delay(b, I32_LIMIT, 0.0) == 300 && Delay(b, I32_LIMIT + 1, 0.0) == 1 && !NeverDecreases(b)
  {
    var b := Backoff(U32_MAX, Duration(0, 0, 0, 1), Duration(0, 0, 5, 0), 2.0, NoJitter);
    WrapShows(b);
    LastPowersAreHuge(2.0);
    PowGrows(2.0, HALF_WAY, I32_LIMIT - 1);
    NeverDecreasesExactly(b);
  }
}
