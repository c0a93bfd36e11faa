/** The delay before the next poll: backoff, jitter and Retry-After. */
module PollDelay {
  import opened Common

  // Seconds on one time line; a timestamp without a zone is refused.
  datatype Timestamp = Timestamp(at: real, aware: bool)

  datatype DelayError = NotPositive | NegativeFailures | OutsideUnit | NaiveTimestamp

  const MINIMUM := 0.001

  function MinR(a: real, b: real): real { if a <= b then a else b }

  function MaxR(a: real, b: real): real { if a >= b then a else b }

  function DoubledTimes(interval: real, n: nat): real {
    if n == 0 then interval else 2.0 * DoubledTimes(interval, n - 1)
  }

  /** One failure keeps the interval, each further one doubles it, up to the cap. */
  function Base(interval: real, failures: nat, maxBackoff: real): real {
    if failures <= 1 then interval else MinR(DoubledTimes(interval, failures - 1), maxBackoff)
  }

  function Scaled(value: real, factor: real): real {
    value * factor
  }

  function Factor(jitterRatio: real, randomValue: real): real {
    1.0 - jitterRatio + 2.0 * Scaled(jitterRatio, randomValue)
  }

  function Unhurried(interval: real, failures: nat, maxBackoff: real, factor: real): real {
    var jittered := Scaled(Base(interval, failures, maxBackoff), factor);
    MaxR(if failures > 0 then MinR(jittered, maxBackoff) else jittered, MINIMUM)
  }

  predicate Positive(interval: real, maxBackoff: real) {
    interval > 0.0 && maxBackoff > 0.0
  }

  predicate InUnit(value: real) {
    0.0 <= value <= 1.0
  }

  function Delay(
    interval: real, failures: int, maxBackoff: real, jitterRatio: real, randomValue: real,
    retryAfter: Option<Timestamp>, now: Timestamp): Result<real, DelayError>
  {
    if !Positive(interval, maxBackoff) then Err(NotPositive)
    else if failures < 0 then Err(NegativeFailures)
    else if !InUnit(randomValue) || !InUnit(jitterRatio) then Err(OutsideUnit)
    else
      var delay := Unhurried(interval, failures, maxBackoff, Factor(jitterRatio, randomValue));
      if retryAfter.None? then Ok(delay)
      else if !retryAfter.value.aware || !now.aware then Err(NaiveTimestamp)
      else Ok(MaxR(MaxR(delay, retryAfter.value.at - now.at), 0.0))
  }

  function PowerOfTwo(n: nat): real {
    if n == 0 then 1.0 else 2.0 * PowerOfTwo(n - 1)
  }

  /** The closed form of the backoff. */
  lemma {:induction false} BaseInClosedForm(interval: real, failures: nat, maxBackoff: real)
    requires Positive(interval, maxBackoff) && failures >= 1 && interval <= maxBackoff
    ensures Base(interval, failures, maxBackoff) == MinR(interval * PowerOfTwo(failures - 1), maxBackoff)
  {
    DoublesArePowers(interval, failures - 1);
    if failures == 1 { assert DoubledTimes(interval, 0) == interval; }
  }

  lemma {:induction false} DoublesArePowers(interval: real, n: nat)
    ensures DoubledTimes(interval, n) == interval * PowerOfTwo(n)
  {
    if n > 0 {
      DoublesArePowers(interval, n - 1);
      assert interval * (2.0 * PowerOfTwo(n - 1)) == 2.0 * (interval * PowerOfTwo(n - 1));
    }
  }

  lemma {:induction false} DoublesAreLarge(interval: real, n: nat, m: nat)
    requires interval > 0.0 && n <= m
    ensures DoubledTimes(interval, m) >= DoubledTimes(interval, n) >= interval
  {
    if m > 0 {
      if n < m { DoublesAreLarge(interval, n, m - 1); } else { DoublesAreLarge(interval, n - 1, m - 1); }
    }
  }

  method NextPollDelay(
    interval: real, failures: int, maxBackoff: real, jitterRatio: real, randomValue: real,
    retryAfter: Option<Timestamp>, now: Timestamp) returns (result: Result<real, DelayError>)
    ensures result == Delay(interval, failures, maxBackoff, jitterRatio, randomValue, retryAfter, now)
  {
    if interval <= 0.0 || maxBackoff <= 0.0 { return Err(NotPositive); }
    if failures < 0 { return Err(NegativeFailures); }
    if !InUnit(randomValue) || !InUnit(jitterRatio) { return Err(OutsideUnit); }
    var base := interval;
    if failures > 0 {
      base := Doubled(interval, failures, maxBackoff);
    }
    var jittered := Scaled(base, 1.0 - jitterRatio + 2.0 * Scaled(jitterRatio, randomValue));
    if failures > 0 { jittered := MinR(jittered, maxBackoff); }
    var delay := MaxR(jittered, MINIMUM);
    if retryAfter.Some? {
      if !retryAfter.value.aware || !now.aware { return Err(NaiveTimestamp); }
      delay := MaxR(MaxR(delay, retryAfter.value.at - now.at), 0.0);
    }
    result := Ok(delay);
  }

  /** The loop with its early exit. */
  method Doubled(interval: real, failures: nat, maxBackoff: real) returns (base: real)
    requires Positive(interval, maxBackoff) && failures > 0
    ensures base == Base(interval, failures, maxBackoff)
  {
    base := interval;
    var i := 0;
    while i < failures - 1
      invariant 0 <= i <= failures - 1
      invariant base == if i == 0 then interval else MinR(DoubledTimes(interval, i), maxBackoff)
    {
      base := MinR(base * 2.0, maxBackoff);
      i := i + 1;
      if base >= maxBackoff {
        DoublesAreLarge(interval, i, failures - 1);
        break;
      }
    }
  }

  // ---------------------------------------------------------------- what the delay promises

  lemma ScaledOrder(a: real, b: real, factor: real)
    requires a <= b && factor >= 0.0
    ensures Scaled(a, factor) <= Scaled(b, factor)
    ensures a < b && factor > 0.0 ==> Scaled(a, factor) < Scaled(b, factor)
  {
    assert b * factor - a * factor == (b - a) * factor;
    ProductSign(b - a, factor);
  }

  lemma ProductSign(a: real, b: real)
    requires a >= 0.0 && b >= 0.0
    ensures a * b >= 0.0
    ensures a > 0.0 && b > 0.0 ==> a * b > 0.0
  {
  }

  lemma ScaledByUnit(value: real, factor: real)
    requires value > 0.0
    ensures factor >= 1.0 <==> Scaled(value, factor) >= value
    ensures factor >= 0.0 ==> Scaled(value, factor) >= 0.0
  {
    if factor >= 1.0 {
      ProductSign(value, factor - 1.0);
    } else {
      ProductSign(value, 1.0 - factor);
    }
    if factor >= 0.0 { ProductSign(value, factor); }
    assert value * factor - value == value * (factor - 1.0);
  }

  lemma FactorIsBounded(jitterRatio: real, randomValue: real)
    requires InUnit(jitterRatio) && InUnit(randomValue)
    ensures 0.0 <= Factor(jitterRatio, randomValue) <= 2.0
  {
    ScaledOrder(0.0, 1.0, 1.0);
    PartOf(jitterRatio, randomValue);
    hide Scaled;
  }

  lemma PartOf(a: real, b: real)
    requires InUnit(a) && InUnit(b)
    ensures 0.0 <= Scaled(a, b) <= a
  {
    ProductSign(a, b);
    ProductSign(a, 1.0 - b);
    assert a - a * b == a * (1.0 - b);
  }

  lemma BaseGrows(interval: real, failures: nat, maxBackoff: real)
    requires Positive(interval, maxBackoff) && failures >= 1 && (failures >= 2 || interval <= maxBackoff)
    ensures Base(interval, failures, maxBackoff) <= Base(interval, failures + 1, maxBackoff)
  {
    DoublesAreLarge(interval, failures - 1, failures);
  }

  /**
   For fixed jitter the delay grows with every failure after the second. From the first to the second it
   grows exactly when the interval is within the cap, or the jitter does not shorten, or the minimum hides it.
   */
  lemma DelayGrowsWithFailures(interval: real, failures: nat, maxBackoff: real, factor: real)
    requires Positive(interval, maxBackoff) && failures >= 1 && 0.0 <= factor <= 2.0
    ensures Unhurried(interval, failures, maxBackoff, factor) <= Unhurried(interval, failures + 1, maxBackoff, factor)
            <==> (failures >= 2 || interval <= maxBackoff || factor >= 1.0
                  || MinR(Scaled(interval, factor), maxBackoff) <= MINIMUM)
  {
    hide Scaled;
    var b, c := Base(interval, failures, maxBackoff), Base(interval, failures + 1, maxBackoff);
    if failures >= 2 || interval <= maxBackoff {
      BaseGrows(interval, failures, maxBackoff);
      ScaledOrder(b, c, factor);
    } else {
      assert b == interval && DoubledTimes(interval, 1) == 2.0 * DoubledTimes(interval, 0) && c == maxBackoff;
      ScaledOrder(maxBackoff, interval, factor);
      ScaledByUnit(maxBackoff, factor);
      ScaledByUnit(interval, factor);
      if factor == 0.0 { NothingScaled(interval); NothingScaled(maxBackoff); }
    }
  }

  /** An interval of twice the cap and jitter that halves: the first failure waits twice as long as the second. */
  lemma TheFirstFailureMayWaitLonger(now: Timestamp)
    ensures Delay(2.0, 1, 1.0, 0.5, 0.0, None, now) == Ok(1.0)
    ensures Delay(2.0, 2, 1.0, 0.5, 0.0, None, now) == Ok(0.5)
  {
    hide Scaled, DoubledTimes, Base;
    BaseIsTheCap(2.0, 1.0);
    NothingScaled(0.5);
    HalfScaled();
  }

  lemma BaseIsTheCap(interval: real, maxBackoff: real)
    requires interval >= maxBackoff > 0.0
    ensures Base(interval, 1, maxBackoff) == interval && Base(interval, 2, maxBackoff) == maxBackoff
  {
    assert DoubledTimes(interval, 1) == 2.0 * DoubledTimes(interval, 0);
  }

  lemma HalfScaled()
    ensures Scaled(2.0, 0.5) == 1.0 && Scaled(1.0, 0.5) == 0.5
  {
  }

  lemma NothingScaled(value: real)
    ensures Scaled(value, 0.0) == 0.0
  {
  }

  /** A delay within its bounds: the cap after a failure, and at least a millisecond. */
  function Bounded(value: real, failures: nat, maxBackoff: real): real {
    var capped := if failures > 0 && value > maxBackoff then maxBackoff else value;
    if capped < 0.001 then 0.001 else capped
  }

  /**
   Jitter spreads the delay evenly: by the ratio below the base at random value 0, not at all at one half, and
   by the ratio above it at 1, within the bounds.
   */
  lemma JitterSpreadsTheDelay(
    interval: real, failures: nat, maxBackoff: real, ratio: real, now: Timestamp, base: real, least: real, most: real)
    requires interval > 0.0 && maxBackoff > 0.0 && 0.0 <= ratio <= 1.0
    requires base == Base(interval, failures, maxBackoff)
    requires least == base * (1.0 - ratio) && most == base * (1.0 + ratio)
    ensures Delay(interval, failures, maxBackoff, ratio, 0.5, None, now) == Ok(Bounded(base, failures, maxBackoff))
    ensures Delay(interval, failures, maxBackoff, ratio, 0.0, None, now) == Ok(Bounded(least, failures, maxBackoff))
    ensures Delay(interval, failures, maxBackoff, ratio, 1.0, None, now) == Ok(Bounded(most, failures, maxBackoff))
  {
    hide Base, Unhurried, Bounded, Scaled, Factor;
    FactorAtEnds(ratio);
    UnhurriedIsBounded(interval, failures, maxBackoff, 1.0, base);
    UnhurriedIsBounded(interval, failures, maxBackoff, 1.0 - ratio, least);
    UnhurriedIsBounded(interval, failures, maxBackoff, 1.0 + ratio, most);
  }

  lemma FactorAtEnds(ratio: real)
    ensures Factor(ratio, 0.5) == 1.0 && Factor(ratio, 0.0) == 1.0 - ratio && Factor(ratio, 1.0) == 1.0 + ratio
  {
    assert Scaled(ratio, 0.5) == ratio / 2.0 && Scaled(ratio, 0.0) == 0.0 && Scaled(ratio, 1.0) == ratio;
    hide Scaled;
  }

  lemma UnhurriedIsBounded(interval: real, failures: nat, maxBackoff: real, factor: real, product: real)
    requires product == Base(interval, failures, maxBackoff) * factor
    ensures Unhurried(interval, failures, maxBackoff, factor) == Bounded(product, failures, maxBackoff)
  {
    hide Base;
  }

  /** What is refused, in this order: times that are not positive, negative failures, shares outside 0 to 1, naive timestamps. */
  lemma RefusalsAreExact(
    interval: real, failures: int, maxBackoff: real, jitterRatio: real, randomValue: real,
    retryAfter: Option<Timestamp>, now: Timestamp)
    ensures var d := Delay(interval, failures, maxBackoff, jitterRatio, randomValue, retryAfter, now);
      var positive := interval > 0.0 && maxBackoff > 0.0;
      var shares := 0.0 <= jitterRatio <= 1.0 && 0.0 <= randomValue <= 1.0;
      && (d.Ok? <==> positive && failures >= 0 && shares && (retryAfter.Some? ==> retryAfter.value.aware && now.aware))
      && (d == Err(NotPositive) <==> !positive)
      && (d == Err(NegativeFailures) <==> positive && failures < 0)
      && (d == Err(OutsideUnit) <==> positive && failures >= 0 && !shares)
  {
    hide Unhurried, Factor;
  }

  /** After a failure the delay stays within cap or minimum; Retry-After alone may raise it, and is never undercut. */
  lemma DelayIsBounded(
    interval: real, failures: int, maxBackoff: real, jitterRatio: real, randomValue: real,
    retryAfter: Option<Timestamp>, now: Timestamp)
    ensures var d := Delay(interval, failures, maxBackoff, jitterRatio, randomValue, retryAfter, now);
      d.Ok? ==>
        && d.value >= 0.001
        && (retryAfter.None? && failures > 0 ==> d.value <= maxBackoff || d.value == 0.001)
        && (retryAfter.None? && failures == 0 ==> d.value <= 2.0 * interval || d.value == 0.001)
        && (retryAfter.Some? ==>
              var wait := retryAfter.value.at - now.at;
              d.value >= wait && (d.value == wait
                || d == Delay(interval, failures, maxBackoff, jitterRatio, randomValue, None, now)))
  {
    if InUnit(jitterRatio) && InUnit(randomValue) && Positive(interval, maxBackoff) {
      var factor := Factor(jitterRatio, randomValue);
      FactorIsBounded(jitterRatio, randomValue);
      TwiceScaled(interval, factor);
    }
    hide Scaled, Factor;
  }

  lemma TwiceScaled(value: real, factor: real)
    requires value > 0.0 && factor <= 2.0
    ensures Scaled(value, factor) <= 2.0 * value
  {
    ProductSign(value, 2.0 - factor);
    assert 2.0 * value - value * factor == value * (2.0 - factor);
  }
}
