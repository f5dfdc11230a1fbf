/** The bit operations of a 64-bit unsigned word, on unbounded naturals. */
module Bits {

  const WORD: nat := 0x1_0000_0000_0000_0000

  function Pow2(k: nat): (p: nat)
    ensures p > 0
  {
    if k == 0 then 1 else 2 * Pow2(k - 1)
  }

  function Or(a: nat, b: nat): nat
    decreases a
  {
    if a == 0 then b
    else 2 * Or(a / 2, b / 2) + if a % 2 == 1 || b % 2 == 1 then 1 else 0
  }

  function And(a: nat, b: nat): nat
    decreases a
  {
    if a == 0 then 0
    else 2 * And(a / 2, b / 2) + if a % 2 == 1 && b % 2 == 1 then 1 else 0
  }

  lemma {:induction false} OrZero(a: nat)
    ensures Or(a, 0) == a
  {
    if a != 0 {
      OrZero(a / 2);
    }
  }

  lemma Double(hi: nat, p: nat)
    ensures hi * (2 * p) == 2 * (hi * p)
    ensures (hi * (2 * p)) % 2 == 0 && (hi * (2 * p)) / 2 == hi * p
  {
  }

  /** Fields that do not overlap are added by `|`. */
  lemma {:induction false} OrAdds(hi: nat, lo: nat, k: nat)
    requires lo < Pow2(k)
    ensures Or(hi * Pow2(k), lo) == hi * Pow2(k) + lo
    decreases k
  {
    if k == 0 {
      OrZero(hi);
    } else {
      Double(hi, Pow2(k - 1));
      OrAdds(hi, lo / 2, k - 1);
    }
  }

  /** Shifting both sides of `|` shifts the result. */
  lemma {:induction false} OrShifted(a: nat, b: nat, k: nat)
    ensures Or(a * Pow2(k), b * Pow2(k)) == Or(a, b) * Pow2(k)
    decreases k
  {
    if k > 0 && a > 0 {
      Double(a, Pow2(k - 1));
      Double(b, Pow2(k - 1));
      Double(Or(a, b), Pow2(k - 1));
      OrShifted(a, b, k - 1);
    }
  }

  lemma OrFullField(s: nat, c: nat, t: nat, k: nat, high: nat)
    requires Pow2(k) == high && t < high
    ensures Or(Or(s * high, c * high), t) == Or(s, c) * high + t
  {
    OrShifted(s, c, k);
    OrAdds(Or(s, c), t, k);
  }

  /** `& (2^k - 1)` keeps the low k bits. */
  lemma {:induction false} AndMask(a: nat, k: nat)
    ensures And(a, Pow2(k) - 1) == a % Pow2(k)
    decreases k
  {
    if a != 0 {
      if k == 0 {
        AndZero(a);
      } else {
        AndMask(a / 2, k - 1);
        ModDouble(a, Pow2(k - 1));
      }
    }
  }

  lemma OrMultiple(x: nat, hi: nat, lo: nat, k: nat, unit: nat)
    requires Pow2(k) == unit && x == hi * unit && lo < unit
    ensures Or(x, lo) == x + lo
  {
    OrAdds(hi, lo, k);
  }

  /**
   Three fields, the lowest below `low`, the next in units of `low` below `high`, the last in units of `high`,
   so that the upper two are `upper` units of `low`.
   */
  lemma OrThreeFields(s: nat, c: nat, t: nat, j: nat, k: nat, high: nat, low: nat, upper: nat)
    requires Pow2(j) == high && Pow2(k) == low && s * high + c * low == upper * low
    requires c * low < high && t < low
    ensures Or(Or(s * high, c * low), t) == s * high + c * low + t
  {
    OrMultiple(s * high, s, c * low, j, high);
    OrMultiple(s * high + c * low, upper, t, k, low);
  }

  lemma {:induction false} AndZero(a: nat)
    ensures And(a, 0) == 0
  {
    if a != 0 {
      AndZero(a / 2);
    }
  }

  lemma ModDouble(a: nat, p: nat)
    requires p > 0
    ensures a % (2 * p) == 2 * (a / 2 % p) + a % 2
  {
    var q, r := a / 2 / p, a / 2 % p;
    assert a / 2 == q * p + r;
    assert a == (2 * p) * q + (2 * r + a % 2);
    ModUnique(a, 2 * p, q, 2 * r + a % 2);
  }

  lemma ModUnique(a: int, d: nat, q: int, r: int)
    requires d > 0 && a == d * q + r && 0 <= r < d
    ensures a % d == r && a / d == q
  {
    var q', r' := a / d, a % d;
    assert a == d * q' + r';
    assert d * (q - q') == r' - r && d * (q' - q) == r - r';
    if q != q' {
      MulAtLeast(d, if q > q' then q - q' else q' - q);
    }
  }

  lemma MulAtLeast(d: nat, n: nat)
    requires n >= 1
    ensures d * n >= d
  {
  }
}
