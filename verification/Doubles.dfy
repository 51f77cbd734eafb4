/**
  Quotients in double-precision arithmetic: a nearest double is a whole significand and a power of
  two, and rounding to it is integer arithmetic.
 */
module Doubles {
  /** 2^52: the significand of a normal double is a whole number from here up to 2^53. */
  const UNIT: nat := 0x10_0000_0000_0000

  /** The value m / 2^e. */
  datatype Double = Double(m: nat, e: nat)

  function Pow2(e: nat): (r: nat)
    ensures r >= 1
  {
    if e == 0 then 1 else 2 * Pow2(e - 1)
  }

  /** The whole number nearest to p / q, ties to even. */
  function RoundEven(p: nat, q: nat): (r: nat)
    requires q > 0
  {
    var d, rest := p / q, p % q;
    if 2 * rest < q || (2 * rest == q && d % 2 == 0) then d else d + 1
  }

  /** The double nearest to p / q, ties to even. The quotients here are far from the ends of the exponent range. */
  function Nearest(p: nat, q: nat): (r: Double)
    requires q > 0
    ensures p > 0 ==> r.m > 0
    decreases if p < UNIT * q then UNIT * q - p else 0, if p >= 2 * UNIT * q then p - q else 0
  {
    if p == 0 then Double(0, 0)
    else if p < UNIT * q then
      var d := Nearest(2 * p, q);
      Double(d.m, d.e + 1)
    else if p >= 2 * UNIT * q then
      var d := Nearest(p, 2 * q);
      Double(2 * d.m, d.e)
    else
      assert p / q >= 1;
      Double(RoundEven(p, q), 0)
  }

  // ---------- products and powers ----------

  lemma TimesMonotone(b: nat, x: int, y: int)
    requires x <= y
    ensures x * b <= y * b
  {
  }

  lemma Positive(k: nat, a: int)
    requires k > 0
    ensures k * a > 0 <==> a > 0
    ensures k * a == 0 <==> a == 0
  {
    if a < 0 { assert k * -a >= 1; } else if a > 0 { assert k * a >= 1; }
  }

  lemma Scale(k: nat, a: int, b: int)
    requires k > 0
    ensures k * a < k * b <==> a < b
    ensures k * a == k * b <==> a == b
  {
    Positive(k, b - a);
    assert k * (b - a) == k * b - k * a;
  }

  lemma Division(p: nat, q: nat)
    requires q > 0
    ensures p == p / q * q + p % q && (p / q + 1) * q == p / q * q + q
  {
  }

  lemma DivisionUnique(a: nat, b: nat, d: nat, rest: nat)
    requires b > 0 && a == d * b + rest && rest < b
    ensures a / b == d && a % b == rest
  {
    var e := a / b;
    assert a == e * b + a % b;
    if d >= e + 1 { TimesMonotone(b, e + 1, d); } else if e >= d + 1 { TimesMonotone(b, d + 1, e); }
  }

  lemma {:induction false} PowersAdd(a: nat, b: nat)
    ensures Pow2(a + b) == Pow2(a) * Pow2(b)
  {
    if a > 0 {
      PowersAdd(a - 1, b);
      assert Pow2(a + b) == 2 * Pow2(a - 1 + b);
    }
  }

  lemma NextPower(p: nat, e: nat)
    ensures p * Pow2(e + 1) == 2 * p * Pow2(e)
  {
  }

  // ---------- how near ----------

  /** `a` is off from `b` by at most a part in 2^53. */
  predicate Close(a: nat, b: nat) { (2 * UNIT - 1) * b <= 2 * UNIT * a <= (2 * UNIT + 1) * b }

  lemma RoundEvenIsNear(p: nat, q: nat)
    requires q > 0
    ensures 2 * p - q <= 2 * (RoundEven(p, q) * q) <= 2 * p + q
  {
    Division(p, q);
  }

  lemma RoundClose(p: nat, q: nat)
    requires q > 0 && p >= UNIT * q
    ensures Close(RoundEven(p, q) * q, p)
  {
    var a := RoundEven(p, q) * q;
    RoundEvenIsNear(p, q);
  }

  /** The three cases of Nearest. */
  lemma NearestCases(p: nat, q: nat)
    requires q > 0 && p > 0
    ensures p < UNIT * q ==>
              Nearest(p, q) == Double(Nearest(2 * p, q).m, Nearest(2 * p, q).e + 1)
    ensures p >= 2 * UNIT * q ==>
              Nearest(p, q) == Double(2 * Nearest(p, 2 * q).m, Nearest(p, 2 * q).e)
    ensures UNIT * q <= p < 2 * UNIT * q ==> Nearest(p, q) == Double(RoundEven(p, q), 0)
  {
  }

  lemma CloseUp(a: nat, p: nat, e: nat)
    requires Close(a, 2 * p * Pow2(e))
    ensures Close(a, p * Pow2(e + 1))
  {
    NextPower(p, e);
  }

  lemma CloseDown(m: nat, q: nat, b: nat)
    requires Close(m * (2 * q), b)
    ensures Close(2 * m * q, b)
  {
    assert m * (2 * q) == 2 * m * q;
  }

  lemma {:induction false} NearestError(p: nat, q: nat)
    requires q > 0
    ensures Close(Nearest(p, q).m * q, p * Pow2(Nearest(p, q).e))
    decreases if p < UNIT * q then UNIT * q - p else 0, if p >= 2 * UNIT * q then p - q else 0
  {
    if p == 0 {
      return;
    }
    NearestCases(p, q);
    if p < UNIT * q {
      NearestError(2 * p, q);
      CloseUp(Nearest(2 * p, q).m * q, p, Nearest(2 * p, q).e);
    } else if p >= 2 * UNIT * q {
      NearestError(p, 2 * q);
      CloseDown(Nearest(p, 2 * q).m, q, p * Pow2(Nearest(p, 2 * q).e));
    } else {
      RoundClose(p, q);
      assert p * Pow2(0) == p;
    }
  }

  /** Whole numbers below 2^53 are exact. */
  lemma {:induction false} WholeIsExact(n: nat)
    requires n < 2 * UNIT
    ensures var r := Nearest(n, 1); r.m == n * Pow2(r.e)
    decreases 2 * UNIT - n
  {
    if 0 < n < UNIT {
      WholeIsExact(2 * n);
      var d := Nearest(2 * n, 1);
      NextPower(n, d.e);
    }
  }

  /** A quotient scaled by 2^e into the range of significands is rounded there. */
  lemma {:induction false} NearestAt(p: nat, q: nat, e: nat, x: nat)
    requires q > 0 && x == p * Pow2(e) && UNIT * q <= x < 2 * UNIT * q
    ensures Nearest(p, q) == Double(RoundEven(x, q), e)
    decreases e
  {
    assert p > 0;
    NearestCases(p, q);
    if e > 0 {
      HalfPower(p, e, x);
      NearestAt(2 * p, q, e - 1, x);
    }
  }

  lemma HalfPower(p: nat, e: nat, x: nat)
    requires e > 0 && x == p * Pow2(e)
    ensures x == 2 * p * Pow2(e - 1) && x >= 2 * p
  {
    TimesMonotone(p, 1, Pow2(e - 1));
  }

  /** Rounding to an even number from below means being more than half a unit below it. */
  lemma RoundsBelowEven(p: nat, q: nat, n: nat)
    requires q > 0 && n % 2 == 0
    ensures RoundEven(p, q) < n <==> 2 * p + q < 2 * (n * q)
  {
    var d, rest := p / q, p % q;
    assert p == d * q + rest;
    var r := RoundEven(p, q);
    RoundEvenIsNear(p, q);
    if r < n {
      TimesMonotone(q, r + 1, n);
      if 2 * p + q == 2 * (n * q) {
        HalfBelow(p, q, n);
      }
    } else {
      TimesMonotone(q, n, r);
    }
  }

  lemma HalfBelow(p: nat, q: nat, n: nat)
    requires q > 0 && n % 2 == 0 && 2 * p + q == 2 * (n * q)
    ensures RoundEven(p, q) == n
  {
    TimesMonotone(q, 1, n);
    assert (n - 1) * q == n * q - q;
    DivisionUnique(p, q, n - 1, p - (n - 1) * q);
  }

  // ---------- only the quotient matters ----------

  lemma ScaledQuotient(k: nat, p: nat, q: nat)
    requires k > 0 && q > 0
    ensures k * q > 0 && k * p / (k * q) == p / q && k * p % (k * q) == k * (p % q)
  {
    var d, rest := p / q, p % q;
    Positive(k, q);
    assert p == d * q + rest;
    calc {
      k * p;
      k * (d * q + rest);
      k * (d * q) + k * rest;
      d * (k * q) + k * rest;
    }
    Scale(k, rest, q);
    DivisionUnique(k * p, k * q, d, k * rest);
  }

  lemma RoundScales(k: nat, p: nat, q: nat)
    requires k > 0 && q > 0
    ensures k * q > 0 && RoundEven(k * p, k * q) == RoundEven(p, q)
  {
    ScaledQuotient(k, p, q);
    Scale(k, 2 * (p % q), q);
    assert 2 * (k * (p % q)) == k * (2 * (p % q));
  }

  lemma Doubled(k: nat, p: nat)
    ensures 2 * (k * p) == k * (2 * p)
  {
  }

  /** Only the quotient matters. */
  lemma {:induction false} NearestScales(k: nat, p: nat, q: nat, kp: nat, kq: nat)
    requires k > 0 && q > 0 && kp == k * p && kq == k * q
    ensures kq > 0 && Nearest(kp, kq) == Nearest(p, q)
    decreases if p < UNIT * q then UNIT * q - p else 0, if p >= 2 * UNIT * q then p - q else 0
  {
    ScaledCases(k, p, q);
    if p == 0 {
      return;
    }
    NearestCases(p, q);
    NearestCases(kp, kq);
    if p < UNIT * q {
      Doubled(k, p);
      NearestScales(k, 2 * p, q, 2 * kp, kq);
    } else if p >= 2 * UNIT * q {
      Doubled(k, q);
      NearestScales(k, p, 2 * q, kp, 2 * kq);
    } else {
      RoundScales(k, p, q);
    }
  }

  lemma ScaledCases(k: nat, p: nat, q: nat)
    requires k > 0 && q > 0
    ensures k * q > 0 && (k * p == 0 <==> p == 0)
    ensures k * p < UNIT * (k * q) <==> p < UNIT * q
    ensures k * p >= 2 * UNIT * (k * q) <==> p >= 2 * UNIT * q
  {
    Positive(k, q);
    Positive(k, p);
    Scale(k, p, UNIT * q);
    Scale(k, p, 2 * UNIT * q);
    assert k * (UNIT * q) == UNIT * (k * q);
    assert k * (2 * UNIT * q) == 2 * UNIT * (k * q);
  }
}
