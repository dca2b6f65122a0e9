/** Powers of two and rounding division. */
module Arith {
  function Pow2(n: nat): (r: nat)
    ensures r > n
  {
    if n == 0 then 1 else 2 * Pow2(n - 1)
  }

  /** Division of naturals. */
  function Quot(a: nat, d: nat): (q: nat)
    requires d > 0
    ensures q == a / d
  {
    a / d
  }

  /** The nearest number between two bounds. */
  function Clamp(x: int, lo: nat, hi: nat): (r: nat)
    requires lo <= hi
    ensures lo <= r <= hi && (lo <= x <= hi ==> r == x) && (x < lo ==> r == lo) && (x > hi ==> r == hi)
  {
    if x < lo then lo else if x > hi then hi else x
  }

  lemma MulMono(a: nat, b: nat, d: nat)
    requires a <= b
    ensures a * d <= b * d
  {
  }

  lemma MulSucc(a: nat, d: nat)
    ensures (a + 1) * d == a * d + d
  {
  }

  lemma MulLess(a: nat, b: nat, d: nat)
    requires a * d < b * d
    ensures a < b
  {
    if b <= a { MulMono(b, a, d); }
  }

  /** The quotient is the only number whose multiple fits below a within d. */
  lemma DivIs(a: nat, d: nat, q: nat)
    requires d > 0 && q * d <= a < (q + 1) * d
    ensures a / d == q
  {
    var r := a / d;
    assert r * d <= a < (r + 1) * d by { assert a == r * d + a % d; assert (r + 1) * d == r * d + d; }
    MulLess(q, r + 1, d);
    MulLess(r, q + 1, d);
  }

  lemma DivBounds(a: nat, d: nat)
    requires d > 0
    ensures (a / d) * d <= a < (a / d + 1) * d
  {
    var q := a / d;
    assert a == q * d + a % d;
    assert (q + 1) * d == q * d + d;
  }

  /** Halving twice is dividing by the product. */
  lemma DivHalf(a: nat, d: nat)
    requires d > 0
    ensures a / (2 * d) == (a / d) / 2
  {
    var q := a / d;
    var r := q / 2;
    DivBounds(a, d);
    assert 2 * r <= q <= 2 * r + 1;
    assert (2 * r) * d <= q * d;
    assert (q + 1) * d <= (2 * r + 2) * d;
    assert r * (2 * d) == (2 * r) * d;
    assert (r + 1) * (2 * d) == (2 * r + 2) * d;
    DivIs(a, 2 * d, r);
  }

  /** Bounds on a quotient. */
  lemma QuotBetween(a: nat, d: nat, lo: nat, hi: nat)
    requires d > 0 && lo * d <= a < (hi + 1) * d
    ensures lo <= a / d <= hi
  {
    DivBounds(a, d);
    var q := Quot(a, d);
    MulLess(lo, q + 1, d);
    MulLess(q, hi + 1, d);
  }
}
