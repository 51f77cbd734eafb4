/**
  The tick interval of a publish run: the two delay functions and the fallback of `prepareCommon`.
  Durations and delays are milliseconds.
 */
module Pacing {
  const TWO64: nat := 0x1_0000_0000_0000_0000

  /** `numberOfRequests - 1` on uint64, wrapping at zero as in the source. */
  function DelayFixedAmount(duration: nat, n: nat): nat
    requires n < TWO64
  {
    var actual := (n + TWO64 - 1) % TWO64;
    if actual > 0 then duration / actual else 1000
  }

  function DelayPeriodically(rate: int): nat {
    if rate > 0 then 1000 / rate else 1000
  }

  /** The fallback of `prepareCommon`; `n` is 0 for a periodic run. */
  function FinalDelay(delay: nat, duration: nat, n: nat): nat {
    if delay > 0 then delay
    else
      var per := if duration > 0 && n > 0 then duration / n else 0;
      if per <= 0 then 100 else per
  }

  lemma QuotientBounds(a: nat, b: nat)
    requires b > 0
    ensures b * (a / b) <= a < b * (a / b + 1)
    ensures a / b >= 1 <==> a >= b
  {
  }

  /** The ticker is never created with a non-positive interval. */
  lemma DelayIsPositive(delay: nat, duration: nat, n: nat)
    ensures FinalDelay(delay, duration, n) >= 1
  {
  }

  /**
    A fixed-amount run: the ticks after the first one fit into the duration iff there is at least
    a millisecond for each of them. If so, the interval is the longest whole one that fits; if
    not, the interval falls back to 100 ms and the run outlasts its duration.
   */
  lemma TicksFitIffAMillisecondEach(duration: nat, n: nat)
    requires 2 <= n < TWO64 && duration > 0
    ensures var delay := FinalDelay(DelayFixedAmount(duration, n), duration, n);
            && ((n - 1) * delay <= duration <==> n - 1 <= duration)
            && (n - 1 <= duration ==> duration < (n - 1) * (delay + 1))
            && (n - 1 > duration ==> delay == 100)
  {
    assert (n + TWO64 - 1) % TWO64 == n - 1;
    QuotientBounds(duration, n - 1);
    QuotientBounds(duration, n);
  }

  /**
    A periodic run keeps up with its rate, as many ticks a second as asked for, iff the rate is at
    most 1000. If so, the interval is the longest whole one that does; if not, it falls back to
    100 ms. Without a rate there is one tick a second.
   */
  lemma RateIsKeptIffAtMostAThousand(rate: int, duration: nat)
    ensures var delay := FinalDelay(DelayPeriodically(rate), duration, 0);
            && (rate > 0 ==> (rate * delay <= 1000 <==> rate <= 1000))
            && (0 < rate <= 1000 ==> 1000 < rate * (delay + 1))
            && (rate > 1000 ==> delay == 100)
            && (rate <= 0 ==> delay == 1000)
  {
    if rate > 0 { QuotientBounds(1000, rate); }
  }

  /** A run of a single message keeps the interval of one second. */
  lemma SingleMessage(duration: nat)
    ensures FinalDelay(DelayFixedAmount(duration, 1), duration, 1) == 1000
  {
  }

  /** 2000 messages in one second: the ticks after the first take 199.9 seconds. */
  lemma RunOutlastsItsDuration()
    ensures (2000 - 1) * FinalDelay(DelayFixedAmount(1000, 2000), 1000, 2000) == 199_900 > 1000
  {
  }
}
