/** Integer models of the JavaScript arithmetic the application relies on. */
module JsMath {

  /** `Math.round(p / q)` for a positive divisor: the nearest integer to the
      exact quotient, halves rounded toward positive infinity. */
  function RoundDiv(p: int, q: int): (r: int)
    requires q > 0
    ensures 2 * q * r - q <= 2 * p < 2 * q * r + q
  {
    var n := 2 * p + q;
    var d := 2 * q;
    assert n == d * (n / d) + n % d;
    n / d
  }

  /** Products with a positive factor are strictly monotone by a full step. */
  lemma MulStep(q: int, a: int, b: int)
    requires q > 0 && a < b
    ensures q * a + q <= q * b
  {
    var n := b - a - 1;
    assert n >= 0;
    assert q * n >= 0;
    assert q * b == q * a + q * n + q by {
      assert b == a + n + 1;
    }
  }

  /** The rounding bracket pins the result down: any integer in it is RoundDiv. */
  lemma RoundDivUnique(p: int, q: int, r: int)
    requires q > 0
    requires 2 * q * r - q <= 2 * p < 2 * q * r + q
    ensures RoundDiv(p, q) == r
  {
    var k := RoundDiv(p, q);
    if k < r {
      MulStep(2 * q, k, r);
    } else if k > r {
      MulStep(2 * q, r, k);
    }
  }

  /** An exact quotient rounds to itself. */
  lemma RoundDivExact(k: int, q: int)
    requires q > 0
    ensures RoundDiv(k * q, q) == k
  {
    RoundDivUnique(k * q, q, k);
  }

  /** Rounding a quotient keeps it within integer bounds of the quotient. */
  lemma RoundDivBetween(p: int, q: int, lo: int, hi: int)
    requires q > 0
    requires lo * q <= p <= hi * q
    ensures lo <= RoundDiv(p, q) <= hi
  {
    var r := RoundDiv(p, q);
    if r < lo {
      MulStep(2 * q, r, lo);
    }
    if r > hi {
      MulStep(2 * q, hi, r);
    }
  }
}
