/** The capped exponential backoff with equal jitter of the outbox relay. */
module Backoff {

  function Power2(exponent: nat): (power: nat)
    ensures power >= 1
  {
    if exponent == 0 then 1 else 2 * Power2(exponent - 1)
  }

  /** min(base * 2^max(0, attempt - 1), cap) */
  function ExponentialDelay(base: nat, cap: nat, attempt: nat): nat {
    var uncapped := base * Power2(if attempt == 0 then 0 else attempt - 1);
    if uncapped <= cap then uncapped else cap
  }

  /** Rounds half up, as Math.round does. */
  function Round(x: real): int {
    (x + 0.5).Floor
  }

  /** Half the delay and a random share of the other half. */
  function Jittered(delay: real, random: real): real {
    delay / 2.0 + random * delay / 2.0
  }

  /** The delay drawn for a random number in [0, 1). */
  function RetryDelay(base: nat, cap: nat, attempt: nat, random: real): int {
    Round(Jittered(ExponentialDelay(base, cap, attempt) as real, random))
  }

  /** Between half the exponential delay and all of it. */
  predicate WithinJitter(base: nat, cap: nat, attempt: nat, delay: int) {
    var full := ExponentialDelay(base, cap, attempt);
    full <= 2 * delay && delay <= full
  }

  lemma ProductIsNotNegative(left: real, right: real)
    requires 0.0 <= left && 0.0 <= right
    ensures 0.0 <= left * right
  {
  }

  lemma FractionOf(fraction: real, whole: real)
    requires 0.0 <= fraction < 1.0 && 0.0 <= whole
    ensures 0.0 <= fraction * whole <= whole
  {
    ProductIsNotNegative(fraction, whole);
    ProductIsNotNegative(1.0 - fraction, whole);
    assert (1.0 - fraction) * whole == whole - fraction * whole;
  }

  lemma RoundBetween(full: nat, x: real)
    requires full as real / 2.0 <= x <= full as real
    ensures full <= 2 * Round(x) && Round(x) <= full
  {
    assert Round(x) as real <= x + 0.5 < Round(x) as real + 1.0;
  }

  lemma HalfPlusShare(whole: real, share: real)
    requires 0.0 <= share <= whole
    ensures whole / 2.0 <= whole / 2.0 + share / 2.0 <= whole
  {
  }

  lemma JitterBetween(delay: real, random: real)
    requires 0.0 <= random < 1.0 && 0.0 <= delay
    ensures delay / 2.0 <= Jittered(delay, random) <= delay
  {
    FractionOf(random, delay);
    HalfPlusShare(delay, random * delay);
  }

  lemma RetryDelayWithinJitter(base: nat, cap: nat, attempt: nat, random: real)
    requires 0.0 <= random < 1.0
    ensures WithinJitter(base, cap, attempt, RetryDelay(base, cap, attempt, random))
  {
    var full := ExponentialDelay(base, cap, attempt);
    JitterBetween(full as real, random);
    RoundBetween(full, Jittered(full as real, random));
  }

  /** The delay is its mean share of the full one, (1 + random) / 2, to the nearest millisecond. */
  lemma RetryDelayIsRandomShare(base: nat, cap: nat, attempt: nat, random: real)
    ensures var exact := (1.0 + random) * ExponentialDelay(base, cap, attempt) as real;
            exact - 1.0 < 2.0 * RetryDelay(base, cap, attempt, random) as real <= exact + 1.0
  {
    var full := ExponentialDelay(base, cap, attempt) as real;
    var x := Jittered(full, random);
    assert (1.0 + random) * full == full + random * full;
    assert Round(x) as real <= x + 0.5 < Round(x) as real + 1.0;
  }

  /** The full delay starts at the base and doubles with every attempt until it meets the cap. */
  lemma DelayDoubles(base: nat, cap: nat, attempt: nat)
    ensures ExponentialDelay(base, cap, 0) == ExponentialDelay(base, cap, 1) == if base <= cap then base else cap
    ensures attempt >= 1 ==>
              var full := ExponentialDelay(base, cap, attempt);
              ExponentialDelay(base, cap, attempt + 1) == if 2 * full <= cap then 2 * full else cap
  {
    if attempt >= 1 {
      var power := Power2(attempt - 1);
      assert Power2(attempt) == 2 * power;
      Doubled(base, power);
    }
  }

  lemma Doubled(base: nat, power: nat)
    ensures base * (2 * power) == 2 * (base * power)
  {
  }

  lemma {:induction false} Power2Monotone(low: nat, high: nat)
    requires low <= high
    ensures Power2(low) <= Power2(high)
    decreases high
  {
    if low < high {
      Power2Monotone(low, high - 1);
    }
  }

  lemma {:induction false} TimesMonotone(factor: nat, low: nat, high: nat)
    requires low <= high
    ensures factor * low <= factor * high
    ensures factor > 0 ==> factor * high >= high
  {
    if factor > 0 {
      TimesMonotone(factor - 1, low, high);
      assert factor * low == (factor - 1) * low + low && factor * high == (factor - 1) * high + high;
    }
  }

  /** Later attempts never wait less, and the cap is reached: retries settle at the cap. */
  lemma BackoffGrowsToCap(base: nat, cap: nat, early: nat, late: nat)
    requires early <= late
    ensures ExponentialDelay(base, cap, early) <= ExponentialDelay(base, cap, late)
    ensures base > 0 && late > cap ==> ExponentialDelay(base, cap, late) == cap
  {
    var first, last := if early == 0 then 0 else early - 1, if late == 0 then 0 else late - 1;
    Power2Monotone(first, last);
    TimesMonotone(base, Power2(first), Power2(last));
    Power2AboveExponent(last);
  }

  lemma {:induction false} Power2AboveExponent(exponent: nat)
    ensures Power2(exponent) > exponent
  {
    if exponent > 0 {
      Power2AboveExponent(exponent - 1);
    }
  }
}
