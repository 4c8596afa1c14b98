/** Powers of two, and facts about products and quotients. */
module Arithmetic {

  function Power2(n: nat): (p: nat)
    ensures p >= 1
  {
    if n == 0 then 1 else 2 * Power2(n - 1)
  }

  lemma Grows(x: int, y: int, b: nat)
    requires x <= y
    ensures x * b <= y * b
  {
  }

  lemma AtMostQuotient(n: nat, d: nat, q: nat)
    requires 0 < d && d * q <= n
    ensures q <= n / d
  {
    var p := n / d;
    assert n < d * (p + 1);
    if p < q {
      Grows(p + 1, q, d);
    }
  }

  /** A larger divisor does not give a larger quotient. */
  lemma QuotientFalls(n: nat, d: nat, e: nat)
    requires 0 < d <= e
    ensures n / e <= n / d
  {
    var q := n / e;
    Grows(d, e, q);
    AtMostQuotient(n, d, q);
  }

  lemma QuotientIs(x: nat, m: nat, p: nat, low: nat)
    requires x == m * p + low && low < p
    ensures x / p == m
  {
    if x / p < m {
      Grows(x / p + 1, m, p);
    } else if m < x / p {
      Grows(m + 1, x / p, p);
    }
  }

  lemma DivBetween(a: nat, b: nat, lo: int, hi: int)
    requires b > 0 && lo * b <= a <= hi * b
    ensures lo <= a / b <= hi
  {
    var q := a / b;
    assert a == b * q + a % b;
    if q < lo {
      Grows(q + 1, lo, b);
    }
    if hi < q {
      Grows(hi + 1, q, b);
    }
  }
}
