/**
  The delays of the scheduler in 64-bit nanoseconds: the webhook backoff, the
  error backoff of a feed with its circuit breaker, and the adaptive interval.
 */
module Schedule {
  import opened Prelude

  const MAX_INT64: int := 0x7FFF_FFFF_FFFF_FFFF
  const TWO_62: int := 0x4000_0000_0000_0000
  const TWO_63: int := 0x8000_0000_0000_0000
  const TWO_64: int := 0x1_0000_0000_0000_0000

  const SECOND: int := 1_000_000_000
  const MINUTE: int := 60 * SECOND
  const HOUR: int := 60 * MINUTE
  const WEEK: int := 7 * 24 * HOUR

  predicate Int64(x: int) {
    -TWO_63 <= x <= MAX_INT64
  }

  /** What an int64 operation leaves of its exact result. */
  function Wrap(x: int): (r: int)
    ensures Int64(r)
    ensures Int64(x) ==> r == x
  {
    (x + TWO_63) % TWO_64 - TWO_63
  }

  function Pow2(n: nat): (r: nat)
    ensures r > 0
  {
    if n == 0 then 1 else 2 * Pow2(n - 1)
  }

  lemma {:induction false} Pow2Grows(m: nat, n: nat)
    requires m <= n
    ensures Pow2(m) <= Pow2(n)
    decreases n
  {
    if m < n {
      Pow2Grows(m, n - 1);
    }
  }

  /** base doubled n times. */
  function Scaled(base: int, n: nat): int {
    if n == 0 then base else 2 * Scaled(base, n - 1)
  }

  lemma {:induction false} ScaledIsProduct(base: int, n: nat)
    ensures Scaled(base, n) == base * Pow2(n)
  {
    if n > 0 {
      ScaledIsProduct(base, n - 1);
    }
  }

  lemma {:induction false} ScaledGrows(base: int, m: nat, n: nat)
    requires base > 0 && m <= n
    ensures 0 < base <= Scaled(base, m) <= Scaled(base, n)
    decreases n
  {
    if m < n {
      ScaledGrows(base, m, n - 1);
    } else if n > 0 {
      ScaledGrows(base, m - 1, n - 1);
    }
  }

  lemma MulCancels(a: int, b: int, p: int)
    requires p > 0 && a * p > b * p
    ensures a > b
  {
  }

  // ------------------------------------------------------------ webhook backoff

  /** base doubled with every attempt after the first, up to max. */
  function Backoff(attempt: nat, base: int, max: int): int {
    Min(max, Scaled(base, if attempt <= 1 then 0 else attempt - 1))
  }

  lemma BackoffIs(attempt: nat, base: int, max: int)
    ensures Backoff(attempt, base, max) == Min(max, base * Pow2(if attempt <= 1 then 0 else attempt - 1))
  {
    ScaledIsProduct(base, if attempt <= 1 then 0 else attempt - 1);
  }

  /** Doubling an already wrapped number wraps like doubling the number. */
  lemma WrapDoubles(x: int)
    ensures Wrap(Wrap(x) * 2) == Wrap(x * 2)
  {
    var q := (x + TWO_63) / TWO_64;
    assert Wrap(x) == x - TWO_64 * q;
    WrapShifts(x * 2, -2 * q);
  }

  lemma WrapShifts(x: int, k: int)
    ensures Wrap(x + TWO_64 * k) == Wrap(x)
  {
    var q := (x + TWO_63) / TWO_64;
    var r := (x + TWO_63) % TWO_64;
    assert x + TWO_64 * k + TWO_63 == TWO_64 * (q + k) + r;
    QuotientIs(x + TWO_64 * k + TWO_63, q + k, r);
  }

  lemma QuotientIs(x: int, q: int, r: int)
    requires x == TWO_64 * q + r && 0 <= r < TWO_64
    ensures x % TWO_64 == r
  {
  }

  /** The delay before the jitter: capped without ever leaving int64, or, with no cap, whatever int64 makes of the doubling. */
  function PlainDelay(attempt: nat, base: int, max: int): int {
    if max > 0 then Backoff(attempt, base, max) else Wrap(Scaled(base, if attempt <= 1 then 0 else attempt - 1))
  }

  /** The doubling loop; with a cap it stops before it could leave int64. */
  method Double(attempt: int, base: int, max: int) returns (d: int)
    requires attempt >= 1 && 0 < base <= MAX_INT64 && Int64(max)
    ensures d == PlainDelay(attempt, base, max)
    ensures d == if max > 0 then Min(max, base * Pow2(attempt - 1)) else Wrap(base * Pow2(attempt - 1))
  {
    ScaledIsProduct(base, attempt - 1);
    d := base;
    var i := 1;
    while i < attempt
      invariant 1 <= i <= attempt
      invariant max > 0 ==> 0 < d <= MAX_INT64
      invariant max > 0 ==> if i < attempt then d == Scaled(base, i - 1) else Min(max, d) == Backoff(attempt, base, max)
      invariant max <= 0 ==> d == Wrap(Scaled(base, i - 1))
    {
      if d > max / 2 && max > 0 {
        assert Scaled(base, i) == 2 * d >= max;
        ScaledGrows(base, i, attempt - 1);
        d := max;
        break;
      }
      WrapDoubles(Scaled(base, i - 1));
      d := Wrap(d * 2);
      i := i + 1;
    }
    if max > 0 && d > max {
      d := max;
    }
  }

  /** Without a cap the delay is the doubled base if and only if that fits int64. */
  lemma UncappedFitsIff(attempt: nat, base: int, max: int)
    requires max <= 0 && 0 < base <= MAX_INT64
    ensures var n := if attempt <= 1 then 0 else attempt - 1;
            PlainDelay(attempt, base, max) == Scaled(base, n) <==> Scaled(base, n) <= MAX_INT64
  {
    ScaledGrows(base, 0, if attempt <= 1 then 0 else attempt - 1);
  }

  /**
    webhookBackoffWithJitter; `jitter` is the random number below half the
    delay. A capped delay never leaves int64; the sum with the jitter may.
   */
  method WebhookBackoffWithJitter(attempt0: int, base0: int, max: int, jitter: int) returns (r: int)
    requires Int64(attempt0) && Int64(base0) && Int64(max)
    requires var d := PlainDelay(Max(attempt0, 1), if base0 <= 0 then SECOND else base0, max); d / 2 > 0 ==> 0 <= jitter < d / 2
    ensures var d := PlainDelay(Max(attempt0, 1), if base0 <= 0 then SECOND else base0, max);
            && (max > 0 ==> 0 < d <= max)
            && r == if d / 2 > 0 then Wrap(d + jitter) else d
  {
    var attempt := if attempt0 <= 0 then 1 else attempt0;
    var base := if base0 <= 0 then SECOND else base0;
    ScaledGrows(base, 0, attempt - 1);
    var d := Double(attempt, base, max);
    var half := d / 2;
    if half <= 0 {
      return d;
    }
    r := Wrap(d + jitter);
  }

  /** The delay with this jitter is what was meant. */
  predicate JitterFits(d: int, jitter: int) {
    d <= Wrap(d + jitter) < d + d / 2
  }

  /** No jitter can leave int64 exactly when one and a half delays, less one, fit. */
  lemma JitterFitsIff(d: int)
    requires 0 < d <= MAX_INT64
    ensures (forall jitter :: 0 <= jitter < d / 2 ==> JitterFits(d, jitter)) <==> d / 2 == 0 || d + d / 2 - 1 <= MAX_INT64
  {
    if d / 2 > 0 && d + d / 2 - 1 > MAX_INT64 {
      var worst := d / 2 - 1;
      assert Wrap(d + worst) == d + worst - TWO_64;
      assert !JitterFits(d, worst);
    }
  }

  /** webhookRetrySchedule with the defaults it fills in: None is a dead row. */
  method WebhookRetrySchedule(attempt: int, maxAttempts0: int, base0: int, max0: int, jitter: int) returns (delay: Option<int>)
    requires Int64(attempt) && Int64(base0) && Int64(max0)
    requires var b := Backoff(Max(attempt, 1), if base0 <= 0 then 5 * SECOND else base0, if max0 <= 0 then HOUR else max0);
             b / 2 > 0 ==> 0 <= jitter < b / 2
    ensures delay.None? <==> attempt >= (if maxAttempts0 <= 0 then 10 else maxAttempts0)
    ensures var b := Backoff(Max(attempt, 1), if base0 <= 0 then 5 * SECOND else base0, if max0 <= 0 then HOUR else max0);
            delay.Some? && b + b / 2 <= MAX_INT64 ==> b <= delay.value <= b + b / 2
  {
    var maxAttempts := if maxAttempts0 <= 0 then 10 else maxAttempts0;
    if attempt >= maxAttempts {
      return None;
    }
    var base := if base0 <= 0 then 5 * SECOND else base0;
    var max := if max0 <= 0 then HOUR else max0;
    var r := WebhookBackoffWithJitter(attempt, base, max, jitter);
    delay := Some(r);
  }

  // ---------------------------------------------------------------- error backoff

  /** clampPollDuration. */
  function Clamp(d: int, min: int, max: int): int {
    if min > 0 && d < min then min else if max > 0 && d > max then max else d
  }

  /** feedBasePollInterval. */
  function BaseInterval(minutes: int, min: int, max: int): int {
    Clamp(Wrap(minutes * MINUTE), min, max)
  }

  /** The interval is the configured minutes, within the bounds. */
  lemma BaseIsMinutes(minutes: int, min: int, max: int)
    requires 0 < min <= max && Int64(minutes * 60 * SECOND)
    ensures BaseInterval(minutes, min, max) == Max(min, Min(max, minutes * 60 * SECOND))
  {
  }

  function Shift(errorCount: int): nat {
    if errorCount <= 0 then 1 else if errorCount > 30 then 30 else errorCount
  }

  /** FeedErrorPollDelay behind its base interval. */
  function ErrorDelay(base: int, errorCount: int, min: int, max: int): int {
    Clamp(Wrap(base * Pow2(Shift(errorCount))), min, max)
  }

  function FeedErrorPollDelay(minutes: int, errorCount: int, min: int, max: int): int {
    ErrorDelay(BaseInterval(minutes, min, max), errorCount, min, max)
  }

  /** What the comment of the function promises, as far as the shift goes. */
  predicate Doubles(base: int, errorCount: int, min: int, max: int) {
    ErrorDelay(base, errorCount, min, max) == Min(max, base * Pow2(Shift(errorCount)))
  }

  lemma DoublesWhenItFits(base: int, errorCount: int, min: int, max: int)
    requires 0 < min <= base <= max && base * Pow2(Shift(errorCount)) <= MAX_INT64
    ensures Doubles(base, errorCount, min, max)
  {
  }

  lemma PowersOfTwo()
    ensures Pow2(16) == 0x1_0000 && Pow2(30) == 0x4000_0000 && Pow2(33) == 0x2_0000_0000
  {
    assert Pow2(4) == 16;
    assert Pow2(8) == 0x100;
    assert Pow2(12) == 0x1000;
    assert Pow2(16) == 0x1_0000;
    assert Pow2(20) == 0x10_0000;
    assert Pow2(24) == 0x100_0000;
    assert Pow2(28) == 0x1000_0000;
    assert Pow2(32) == 0x1_0000_0000;
  }

  lemma {:induction false} Pow2Adds(m: nat, n: nat)
    ensures Pow2(m + n) == Pow2(m) * Pow2(n)
    decreases n
  {
    if n > 0 {
      Pow2Adds(m, n - 1);
      assert Pow2(m + n) == 2 * Pow2(m + n - 1);
    }
  }

  lemma SixtyThree()
    ensures Pow2(63) == TWO_63
  {
    PowersOfTwo();
    Pow2Adds(30, 33);
  }

  /**
    For a given maximum and error count, every base interval backs off as
    promised exactly when the maximum itself can be shifted within int64. A
    base interval at the edge wraps to a negative delay and is polled at the
    minimum again.
   */
  lemma ErrorBackoffIff(errorCount: int, max: int)
    requires 1 < max <= MAX_INT64
    ensures max * Pow2(Shift(errorCount)) <= MAX_INT64 <==>
            forall base, min :: 0 < min <= base <= max ==> Doubles(base, errorCount, min, max)
  {
    if max * Pow2(Shift(errorCount)) <= MAX_INT64 {
      forall base, min | 0 < min <= base <= max ensures Doubles(base, errorCount, min, max) {
        MulGrows(Pow2(Shift(errorCount)), base, max);
        DoublesWhenItFits(base, errorCount, min, max);
      }
    } else {
      EdgeWraps(errorCount, max);
    }
  }

  lemma OneLess(a: int, p: int)
    ensures (a - 1) * p == a * p - p
  {
  }

  lemma EdgeWraps(errorCount: int, max: int)
    requires 1 < max <= MAX_INT64 && max * Pow2(Shift(errorCount)) > MAX_INT64
    ensures var edge := Pow2(63 - Shift(errorCount)); edge <= max && !Doubles(edge, errorCount, 1, max)
  {
    var p, edge := Pow2(Shift(errorCount)), Pow2(63 - Shift(errorCount));
    SixtyThree();
    Pow2Adds(63 - Shift(errorCount), Shift(errorCount));
    assert edge * p == TWO_63;
    OneLess(edge, p);
    MulCancels(max, edge - 1, p);
    assert Wrap(TWO_63) == -TWO_63;
  }

  /** Up to 24 hours and 16 errors everything fits; a day's base and 17 errors do not. */
  lemma DayLimits(errorCount: int, min: int, max: int, minutes: int)
    requires 0 < min <= max <= 24 * HOUR && errorCount <= 16
    ensures FeedErrorPollDelay(minutes, errorCount, min, max) == Min(max, BaseInterval(minutes, min, max) * Pow2(Shift(errorCount)))
    ensures FeedErrorPollDelay(24 * 60, 17, MINUTE, 24 * HOUR) == MINUTE
  {
    PowersOfTwo();
    var base := BaseInterval(minutes, min, max);
    Pow2Grows(Shift(errorCount), 16);
    MulGrows(base, Pow2(Shift(errorCount)), Pow2(16));
    MulGrows(Pow2(16), base, 24 * HOUR);
    DoublesWhenItFits(base, errorCount, min, max);
    assert Pow2(17) == 0x2_0000;
    assert BaseInterval(24 * 60, MINUTE, 24 * HOUR) == 24 * HOUR;
  }

  // --------------------------------------------------------------- circuit breaker

  /** feed_poll_state: parsing_error_count and poll_paused. */
  class PollState {
    var errors: nat
    var paused: bool

    constructor ()
      ensures errors == 0 && !paused
    {
      errors, paused := 0, false;
    }

    predicate Valid(threshold: nat)
      reads this
    {
      (paused <==> errors >= threshold) && errors <= threshold
    }

    /** RecordFeedPollFailure for a poll that ran, which a paused feed's does not; the delay it is given. */
    method RecordFailure(configured: int, minutes: int, min: int, max: int) returns (delay: int)
      requires Valid(Threshold(configured)) && !paused
      modifies this
      ensures Valid(Threshold(configured)) && errors == old(errors) + 1
      ensures paused <==> errors == if configured <= 0 then 10 else configured
      ensures delay == FeedErrorPollDelay(minutes, errors, min, max)
      ensures 0 < min <= max <= 24 * HOUR && Threshold(configured) <= 16 ==>
                delay == Min(max, BaseInterval(minutes, min, max) * Pow2(errors))
    {
      var threshold := if configured <= 0 then 10 else configured;
      errors := errors + 1;
      paused := errors >= threshold;
      delay := FeedErrorPollDelay(minutes, errors, min, max);
      if 0 < min <= max <= 24 * HOUR && threshold <= 16 {
        DayLimits(errors, min, max, minutes);
      }
    }

    /** A successful poll, a manual reset and the daily reset. */
    method Reset(configured: int)
      modifies this
      ensures Valid(Threshold(configured)) && errors == 0 && !paused
    {
      errors, paused := 0, false;
    }
  }

  function Threshold(configured: int): nat
  {
    if configured <= 0 then 10 else configured
  }

  // ------------------------------------------------------------ adaptive interval

  /** Whole weeks of silence after the first. */
  function ExtraWeeks(silentFor: int): nat {
    if silentFor < 2 * WEEK then 0 else silentFor / WEEK - 1
  }

  /** The interval of a feed that published nothing in the window. */
  function SilentInterval(silentFor: int, max: int, hardMax: int): int {
    Min(Max(hardMax, max), Scaled(max, ExtraWeeks(silentFor)))
  }

  /** Whole weeks of silence. */
  function Weeks(silentFor: int): nat {
    if silentFor < 0 then 0 else silentFor / WEEK
  }

  /** The doubling loop of the silent branch on int64. */
  function Doubled(d: int, weeks: nat, hardMax: int): int
    decreases weeks
  {
    if weeks > 1 && d < hardMax then Doubled(Wrap(d * 2), weeks - 1, hardMax) else d
  }

  method Stretch(silentFor: int, max: int, hardMax: int) returns (d: int)
    requires Int64(silentFor) && 0 < max <= hardMax <= MAX_INT64
    ensures d == Doubled(max, Weeks(silentFor), hardMax)
  {
    d := max;
    var weeks: int := if silentFor < 0 then 0 else silentFor / WEEK;
    while weeks > 1 && d < hardMax
      invariant weeks >= 0 && Doubled(d, weeks, hardMax) == Doubled(max, Weeks(silentFor), hardMax)
      decreases weeks
    {
      d := Wrap(d * 2);
      weeks := weeks - 1;
    }
  }

  /** Below the bound no doubling wraps, and the loop stops at hardMax or when the weeks are used up. */
  lemma {:induction false} DoubledIsScaled(d: int, weeks: nat, hardMax: int)
    requires 0 < d && 0 < hardMax <= TWO_62
    ensures Doubled(d, weeks, hardMax) >= d
    ensures Min(hardMax, Doubled(d, weeks, hardMax)) == Min(hardMax, Scaled(d, if weeks > 1 then weeks - 1 else 0))
    decreases weeks
  {
    if weeks > 1 {
      ScaledGrows(d, 0, weeks - 1);
      if d < hardMax {
        DoubledIsScaled(2 * d, weeks - 1, hardMax);
        ScaledShifts(d, weeks - 2);
      }
    }
  }

  lemma {:induction false} ScaledShifts(d: int, n: nat)
    ensures Scaled(2 * d, n) == Scaled(d, n + 1)
  {
    if n > 0 {
      ScaledShifts(d, n - 1);
    }
  }

  /** The silent branch gives the interval that is meant. */
  predicate Stretches(base: int, max: int, silentFor: int, hardMax: int) {
    Clamp(Doubled(max, Weeks(silentFor), hardMax), base, hardMax) == SilentInterval(silentFor, max, hardMax)
  }

  lemma StretchesBelow(base: int, max: int, silentFor: int, hardMax: int)
    requires 0 < base <= max <= hardMax <= TWO_62
    ensures Stretches(base, max, silentFor, hardMax)
  {
    DoubledIsScaled(max, Weeks(silentFor), hardMax);
  }

  /** Above the bound the doubling wraps: after two silent weeks a feed is polled at its base again. */
  lemma WrapsAbove(base: int, hardMax: int)
    requires 0 < base < TWO_62 < hardMax <= MAX_INT64
    ensures Clamp(Doubled(TWO_62, Weeks(2 * WEEK), hardMax), base, hardMax) == base < SilentInterval(2 * WEEK, TWO_62, hardMax)
  {
    assert Wrap(TWO_62 * 2) == -TWO_63;
    assert Doubled(-TWO_63, 1, hardMax) == -TWO_63;
    assert Scaled(TWO_62, 1) == 2 * Scaled(TWO_62, 0) == TWO_63;
  }

  /** The silent branch is right for every base, maximum and silence if and only if the hard maximum is at most 2^62. */
  lemma SilentIntervalIff(hardMax: int)
    requires 2 <= hardMax <= MAX_INT64
    ensures hardMax <= TWO_62 <==>
            forall base, max, silentFor :: 0 < base <= max <= hardMax && Int64(silentFor) ==> Stretches(base, max, silentFor, hardMax)
  {
    if hardMax <= TWO_62 {
      forall base, max, silentFor | 0 < base <= max <= hardMax && Int64(silentFor) ensures Stretches(base, max, silentFor, hardMax) {
        StretchesBelow(base, max, silentFor, hardMax);
      }
    } else {
      WrapsAbove(1, hardMax);
      assert !Stretches(1, TWO_62, 2 * WEEK, hardMax);
    }
  }

  /** AdaptivePollInterval on int64. */
  method AdaptivePollInterval(base: int, weeklyItems: int, silentFor: int, max: int, hardMax0: int) returns (d: int)
    requires Int64(silentFor) && 0 < base && Int64(max) && Int64(hardMax0)
    ensures max <= base ==> d == base
    ensures max > base && weeklyItems > 0 ==> d == Max(base, Min(max, WEEK / weeklyItems / 2))
    ensures max > base && weeklyItems <= 0 ==> d == Clamp(Doubled(max, Weeks(silentFor), Max(hardMax0, max)), base, Max(hardMax0, max))
    ensures max > base && weeklyItems <= 0 && Max(hardMax0, max) <= TWO_62 ==> d == SilentInterval(silentFor, max, hardMax0)
    ensures base <= d && (max > base ==> d <= Max(hardMax0, max))
  {
    if max <= base {
      return base;
    }
    if weeklyItems > 0 {
      d := WEEK / weeklyItems / 2;
      return Clamp(d, base, max);
    }
    var hardMax := if hardMax0 < max then max else hardMax0;
    d := Stretch(silentFor, max, hardMax);
    d := Clamp(d, base, hardMax);
    if hardMax <= TWO_62 {
      StretchesBelow(base, max, silentFor, hardMax);
    }
  }

  /** More silence never means a shorter interval, and it stays within the two maxima. */
  lemma SilenceStretches(shorter: int, longer: int, max: int, hardMax: int)
    requires shorter <= longer && max > 0
    ensures max <= SilentInterval(shorter, max, hardMax) <= SilentInterval(longer, max, hardMax) <= Max(hardMax, max)
  {
    ScaledGrows(max, ExtraWeeks(shorter), ExtraWeeks(longer));
  }

  /** More items never mean a longer interval. */
  lemma ActivityShortens(fewer: int, more: int, base: int, max: int)
    requires 0 < fewer <= more && base <= max
    ensures Max(base, Min(max, WEEK / more / 2)) <= Max(base, Min(max, WEEK / fewer / 2))
  {
    DivisionShrinks(WEEK, fewer, more);
  }

  lemma DivisionShrinks(x: int, a: int, b: int)
    requires x >= 0 && 0 < a <= b
    ensures x / b <= x / a
  {
    var p, q := x / a, x / b;
    assert q * a <= q * b by { MulGrows(q, a, b); }
    assert (p + 1) * a == p * a + a > x;
    MulCancels(p + 1, q, a);
  }

  lemma MulGrows(q: int, a: int, b: int)
    requires q >= 0 && a <= b
    ensures q * a <= q * b
  {
  }
}
