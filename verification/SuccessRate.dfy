/**
  The success rate of a publish run in double-precision arithmetic, as the verdict computes it,
  and the exact set of runs for which rounding changes the verdict.
 */
module SuccessRate {
  import opened Doubles

  /** `float64(good) / float64(total) * 100` */
  function Rate(total: nat, good: nat): Double
    requires total > 0
  {
    var g, t := Nearest(good, 1), Nearest(total, 1);
    var q := Nearest(g.m * Pow2(t.e), t.m * Pow2(g.e));
    Nearest(100 * q.m, Pow2(q.e))
  }

  /** The verdict of `stop`: the rate is below the required percentage, a run without attempts counting as 0 percent. */
  predicate BelowRate(required: int, total: nat, good: nat) {
    if total == 0 then 0 < required
    else
      var rate := Rate(total, good);
      rate.m < required * Pow2(rate.e)
  }

  // ---------- the verdict ----------

  /** 2^45 successes at the shortest interval of one a millisecond take more than a thousand years. */
  const MANY: nat := 0x2000_0000_0000

  lemma QuotientOfWholes(g: nat, good: nat, x: nat, t: nat, total: nat, y: nat)
    requires g == good * x && t == total * y && x > 0 && y > 0 && total > 0
    ensures t * x > 0 && Nearest(g * y, t * x) == Nearest(good, total)
  {
    Positive(x, y);
    assert g * y == x * y * good;
    assert t * x == x * y * total;
    NearestScales(x * y, good, total, g * y, t * x);
  }

  lemma RateOfCounters(total: nat, good: nat)
    requires 0 < total < 2 * UNIT && good < 2 * UNIT
    ensures var q := Nearest(good, total); Rate(total, good) == Nearest(100 * q.m, Pow2(q.e))
  {
    WholeIsExact(good);
    WholeIsExact(total);
    var g, t := Nearest(good, 1), Nearest(total, 1);
    QuotientOfWholes(g.m, good, Pow2(g.e), t.m, total, Pow2(t.e));
  }

  lemma CloseScales(k: nat, a: nat, b: nat, ka: nat, kb: nat)
    requires Close(a, b) && ka == k * a && kb == k * b
    ensures Close(ka, kb)
  {
    TimesMonotone(k, (2 * UNIT - 1) * b, 2 * UNIT * a);
    TimesMonotone(k, 2 * UNIT * a, (2 * UNIT + 1) * b);
    assert (2 * UNIT - 1) * b * k == (2 * UNIT - 1) * kb;
    assert 2 * UNIT * a * k == 2 * UNIT * ka;
    assert (2 * UNIT + 1) * b * k == (2 * UNIT + 1) * kb;
  }

  /** Two roundings in a row stay within one part in `z`. */
  lemma TwoRoundings(a: nat, b: nat, c: nat, z: nat)
    requires z > 0 && Close(a, b) && Close(c, 100 * a) && b <= (MANY - 1) * z
    ensures 100 * b - z < c < 100 * b + z
  {
  }

  lemma Regroup(m: nat, total: nat, good: nat, x: nat, y: nat, quotient: nat)
    ensures 100 * (quotient * total * y) == total * (100 * quotient * y)
    ensures good * x * y == good * (x * y) && m * x * total == x * (m * total)
  {
  }

  lemma Distribute(good: nat, x: nat, y: nat)
    ensures x * (100 * good * y - y) == 100 * (good * x * y) - x * y
    ensures x * (100 * good * y + y) == 100 * (good * x * y) + x * y
  {
  }

  lemma ErrorOfProduct(m: nat, total: nat, good: nat, x: nat, y: nat, quotient: nat)
    requires total > 0 && x > 0 && y > 0 && good < MANY
    requires Close(quotient * total, good * x) && Close(m * x, 100 * quotient * y)
    ensures 100 * good * y - y < m * total < 100 * good * y + y
  {
    var a, b, c, z := quotient * total * y, good * x * y, m * x * total, x * y;
    Positive(x, y);
    Regroup(m, total, good, x, y, quotient);
    CloseScales(y, quotient * total, good * x, a, b);
    CloseScales(total, m * x, 100 * quotient * y, c, 100 * a);
    TimesMonotone(z, good, MANY - 1);
    TwoRoundings(a, b, c, z);
    Distribute(good, x, y);
    Scale(x, 100 * good * y - y, m * total);
    Scale(x, m * total, 100 * good * y + y);
  }

  /** The rate is closer to the true one than one part in the number of attempts. */
  lemma {:induction false} RateError(total: nat, good: nat)
    requires 0 < total < 2 * UNIT && good < MANY
    ensures var r := Rate(total, good); var y := Pow2(r.e);
            100 * good * y - y < r.m * total < 100 * good * y + y
  {
    var q := Nearest(good, total);
    RateOfCounters(total, good);
    NearestError(good, total);
    NearestError(100 * q.m, Pow2(q.e));
    var r := Nearest(100 * q.m, Pow2(q.e));
    ErrorOfProduct(r.m, total, good, Pow2(q.e), Pow2(r.e), q.m);
  }

  lemma CompareScaled(m: nat, required: int, total: nat, good: nat, y: nat)
    requires total > 0 && y > 0 && 100 * good != required * total
    requires 100 * good * y - y < m * total < 100 * good * y + y
    ensures m < required * y <==> 100 * good < required * total
  {
    var d := required * total - 100 * good;
    assert total * (required * y) == d * y + 100 * good * y;
    if d > 0 { TimesMonotone(y, 1, d); } else { TimesMonotone(y, d, -1); }
    assert total * m == m * total;
    Scale(total, m, required * y);
  }

  /** Away from the required percentage the verdict is the exact comparison. */
  lemma ExactUnlessEqual(required: int, total: nat, good: nat)
    requires 0 < total < 2 * UNIT && good < MANY && 100 * good != required * total
    ensures BelowRate(required, total, good) <==> 100 * good < required * total
  {
    var r := Rate(total, good);
    RateError(total, good);
    CompareScaled(r.m, required, total, good, Pow2(r.e));
  }

  // ---------- the verdict at the required percentage ----------

  /** Below the required percentage in double precision although equal to it. */
  const ROUNDED_DOWN: set<int> := {29, 57, 58}

  /** The rate of any run that is exactly at `required` percent. */
  function RateAt(required: nat): Double {
    var q := Nearest(required, 100);
    Nearest(100 * q.m, Pow2(q.e))
  }

  predicate RoundsDown(required: nat) { RateAt(required).m < required * Pow2(RateAt(required).e) }

  lemma RateOnlyDependsOnQuotient(required: nat, total: nat, good: nat)
    requires 0 < total < 2 * UNIT && good < 2 * UNIT && 100 * good == required * total
    ensures Rate(total, good) == RateAt(required)
  {
    RateOfCounters(total, good);
    NearestScales(100, good, total, 100 * good, 100 * total);
    NearestScales(total, required, 100, required * total, 100 * total);
  }

  const TWO53: nat := 0x20_0000_0000_0000

  lemma HalvedQuotient(required: nat)
    requires 0 < required <= 50
    ensures var q := Nearest(2 * required, 100);
            Nearest(required, 100) == Double(q.m, q.e + 1) && q.m <= 2 * Pow2(q.e)
  {
    NearestCases(required, 100);
    NearestError(2 * required, 100);
    TimesMonotone(Pow2(Nearest(2 * required, 100).e), 2 * required, 100);
  }

  lemma HalvedProduct(m: nat, y: nat)
    requires 0 < m <= 2 * y
    ensures var r := Nearest(100 * m, y); Nearest(100 * m, 2 * y) == Double(r.m, r.e + 1)
  {
    NearestCases(100 * m, 2 * y);
    NearestScales(2, 100 * m, y, 2 * (100 * m), 2 * y);
  }

  lemma HalvedRate(required: nat)
    requires 0 < required <= 50
    ensures var r := RateAt(2 * required); RateAt(required) == Double(r.m, r.e + 1)
  {
    var q := Nearest(2 * required, 100);
    HalvedQuotient(required);
    HalvedProduct(q.m, Pow2(q.e));
  }

  /** Doubling the percentage doubles the rate and nothing else. */
  lemma DoubledPercentage(required: nat)
    requires 0 < required <= 50
    ensures RoundsDown(required) <==> RoundsDown(2 * required)
  {
    HalvedRate(required);
    NextPower(required, RateAt(2 * required).e);
  }

  lemma Powers()
    ensures Pow2(46) == 0x4000_0000_0000 && Pow2(47) == 0x8000_0000_0000 && Pow2(53) == TWO53
  {
    assert Pow2(15) == 0x8000;
    PowersAdd(15, 15);
    PowersAdd(15, 30);
    assert Pow2(45) == 0x2000_0000_0000;
    PowersAdd(6, 47);
  }

  /** The significand of required / 100, from 50 percent up. */
  function Significand(required: nat): nat { RoundEven(required * TWO53, 100) }

  lemma ProductRoundsBelow(m: nat, required: nat, y: nat, half: nat)
    requires y > 0 && y % 2 == 0 && 2 * half * y == TWO53
    ensures RoundEven(100 * m * y, TWO53) < required * y <==> 100 * m + half < required * TWO53
  {
    assert required * y % 2 == 0 by { EvenProduct(required, y); }
    RoundsBelowEven(100 * m * y, TWO53, required * y);
    assert 2 * (100 * m * y) + TWO53 == 2 * y * (100 * m + half);
    assert 2 * (required * y * TWO53) == 2 * y * (required * TWO53);
    Scale(2 * y, 100 * m + half, required * TWO53);
  }

  lemma EvenProduct(a: nat, y: nat)
    requires y % 2 == 0
    ensures a * y % 2 == 0
  {
    DivisionUnique(a * y, 2, a * (y / 2), 0);
  }

  lemma SignificandRange(required: nat, y: nat)
    requires 50 <= required < 100 && y == if required < 64 then 0x8000_0000_0000 else 0x4000_0000_0000
    ensures UNIT * TWO53 <= 100 * Significand(required) * y < 2 * UNIT * TWO53
  {
    RoundEvenIsNear(required * TWO53, 100);
  }

  /** From 50 percent up the quotient lies in [1/2, 1); rounding the product loses up to half its last place. */
  lemma RateFromFifty(required: nat, e: nat, half: nat)
    requires 50 <= required < 100
    requires if required < 64 then e == 47 && half == 32 else e == 46 && half == 64
    ensures RoundsDown(required) <==> 100 * Significand(required) + half < required * TWO53
  {
    Powers();
    var m := Significand(required);
    NearestAt(required, 100, 53, required * TWO53);
    SignificandRange(required, Pow2(e));
    NearestAt(100 * m, TWO53, e, 100 * m * Pow2(e));
    ProductRoundsBelow(m, required, Pow2(e), half);
  }

  /** From 50 percent up, by the remainder of required * 2^53 on division by 100. */
  lemma FromFifty(required: nat)
    requires 50 <= required < 100
    ensures RoundsDown(required) <==> required in ROUNDED_DOWN
  {
    var half := if required < 64 then 32 else 64;
    RateFromFifty(required, if required < 64 then 47 else 46, half);
    var p := required * TWO53;
    assert p == 100 * (90071992547409 * required) + 92 * required;
    if required < 64 {
      SmallRemainder(required);
    } else {
      RoundEvenIsNear(p, 100);
    }
  }

  lemma SmallRemainder(required: nat)
    requires 50 <= required < 64
    ensures 100 * Significand(required) + 32 < required * TWO53 <==> required in ROUNDED_DOWN
  {
    var p := required * TWO53;
    assert p % 100 == 92 * required % 100;
    assert p / 100 == 90071992547409 * required + 92 * required / 100;
  }

  /** Whatever is invariant under doubling is settled by the percentages from 50 to 99. */
  lemma {:induction false} ByDoubling(holds: nat -> bool, required: nat)
    requires 0 < required <= 100
    requires forall r: nat :: 0 < r <= 50 ==> (holds(r) <==> holds(2 * r))
    requires forall r: nat :: 50 <= r < 100 ==> (holds(r) <==> r in ROUNDED_DOWN)
    ensures holds(required) <==> required in ROUNDED_DOWN
    decreases 100 - required
  {
    if required < 50 { ByDoubling(holds, 2 * required); } else if required == 100 { assert holds(50) <==> holds(2 * 50); }
  }

  /** A run that is exactly at the required percentage is failed for these three percentages only. */
  lemma RoundsDownIff(required: nat)
    requires 0 < required <= 100
    ensures RoundsDown(required) <==> required in ROUNDED_DOWN
  {
    forall r: nat | 0 < r <= 50 ensures RoundsDown(r) <==> RoundsDown(2 * r) { DoubledPercentage(r); }
    forall r: nat | 50 <= r < 100 ensures RoundsDown(r) <==> r in ROUNDED_DOWN { FromFifty(r); }
    ByDoubling(RoundsDown, required);
  }

  /**
    What the verdict says in whole numbers: a run below the required percentage fails, one above it
    passes, and one exactly at it passes except at 29, 57 and 58 percent.
   */
  predicate FailsInWholeNumbers(required: int, total: nat, good: nat) {
    if total == 0 then 0 < required
    else 100 * good < required * total || (100 * good == required * total && required in ROUNDED_DOWN)
  }

  /** Double precision puts the rate of a run exactly at 29, 57 or 58 percent just below it; no other verdict is affected by rounding. */
  lemma VerdictIff(required: int, total: nat, good: nat)
    requires total < 2 * UNIT && good < MANY && (required <= 100 || good <= total)
    ensures BelowRate(required, total, good) <==> FailsInWholeNumbers(required, total, good)
  {
    if total > 0 {
      if 100 * good != required * total {
        ExactUnlessEqual(required, total, good);
      } else if required > 0 {
        if required > 100 { TimesMonotone(total, 101, required); }
        RateOnlyDependsOnQuotient(required, total, good);
        RoundsDownIff(required);
      } else {
        if required < 0 { TimesMonotone(total, required, -1); }
      }
    }
  }

  /** A run with 29 successes in 100 attempts fails a required success rate of 29 percent. */
  lemma ExactlyAtTheRateCanFail()
    ensures BelowRate(29, 100, 29)
  {
    VerdictIff(29, 100, 29);
  }
}
