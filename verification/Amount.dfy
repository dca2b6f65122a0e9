/** The compact form of amounts (src/core.cpp: CTxOutCompressor). */
module Amount {
  import opened Core
  import opened Arith

  const TWO_64: nat := 0x1_0000_0000_0000_0000

  /** A value that fits the program's 64-bit unsigned type. */
  type Uint64 = n: nat | n < TWO_64

  function Pow10(e: nat): (p: nat)
    ensures p > 0
  {
    if e == 0 then 1 else 10 * Pow10(e - 1)
  }

  /** The exponent: how many factors of ten are taken out of n, at most 9 - e of them. */
  function Exponent(n: nat, e: nat): (r: nat)
    requires n > 0 && e <= 9
    ensures e <= r <= 9
    decreases 9 - e
  {
    if n % 10 == 0 && e < 9 then Exponent(n / 10, e + 1) else e
  }

  /** What is left of n once they are. */
  function Mantissa(n: nat, e: nat): (m: nat)
    requires n > 0 && e <= 9
    ensures 0 < m <= n
    ensures m * Pow10(Exponent(n, e) - e) == n
    ensures Exponent(n, e) < 9 ==> m % 10 != 0
    decreases 9 - e
  {
    if n % 10 == 0 && e < 9 then
      var m := Mantissa(n / 10, e + 1);
      assert Pow10(Exponent(n, e) - e) == 10 * Pow10(Exponent(n / 10, e + 1) - (e + 1));
      TenTimes(m, Pow10(Exponent(n / 10, e + 1) - (e + 1)));
      m
    else n
  }

  lemma TenTimes(m: nat, p: nat)
    ensures m * (10 * p) == 10 * (m * p)
  {
  }

  function Compress(n: nat): nat {
    if n == 0 then 0
    else
      var e, m := Exponent(n, 0), Mantissa(n, 0);
      if e < 9 then 1 + (m / 10 * 9 + m % 10 - 1) * 10 + e else 1 + (m - 1) * 10 + 9
  }

  /** The mantissa and exponent a compact amount stands for. */
  function Expand(x: nat): (me: (nat, nat))
    requires x > 0
    ensures me.0 > 0 && me.1 <= 9 && (me.1 < 9 ==> me.0 % 10 != 0)
  {
    var e, y := (x - 1) % 10, (x - 1) / 10;
    if e < 9 then (y / 9 * 10 + y % 9 + 1, e) else (y + 1, e)
  }

  function Decompress(x: nat): nat {
    if x == 0 then 0 else Expand(x).0 * Pow10(Expand(x).1)
  }

  /** A mantissa and an exponent that belong together can be read off their product. */
  lemma {:induction false} Unique(m: nat, e: nat, d: nat)
    requires m > 0 && d <= 9 && e <= 9 - d && (e + d < 9 ==> m % 10 != 0)
    ensures m * Pow10(e) > 0
    ensures Exponent(m * Pow10(e), d) == e + d && Mantissa(m * Pow10(e), d) == m
    decreases e
  {
    if e > 0 {
      var n := m * Pow10(e);
      TenTimes(m, Pow10(e - 1));
      Unique(m, e - 1, d + 1);
      assert n == 10 * (m * Pow10(e - 1));
      assert n % 10 == 0 && n / 10 == m * Pow10(e - 1);
    }
  }

  lemma DivTen(q: nat, r: nat)
    requires r < 10
    ensures (q * 10 + r) / 10 == q && (q * 10 + r) % 10 == r
  {
  }

  lemma DivNine(q: nat, r: nat)
    requires r < 9
    ensures (q * 9 + r) / 9 == q && (q * 9 + r) % 9 == r
  {
  }

  /** A compact amount expands to the mantissa and exponent it was made of. */
  lemma ExpandBack(q: nat, d: nat, e: nat)
    requires d < 10 && e <= 9 && q * 10 + d > 0 && (e < 9 ==> d > 0)
    ensures Expand(if e < 9 then 1 + (q * 9 + d - 1) * 10 + e else 1 + (q * 10 + d - 1) * 10 + 9) == (q * 10 + d, e)
  {
    if e < 9 {
      DivTen(q * 9 + d - 1, e);
      DivNine(q, d - 1);
    } else {
      DivTen(q * 10 + d - 1, 9);
    }
  }

  /** Decompression undoes compression, for every amount. */
  lemma CompressedBack(n: nat)
    ensures Decompress(Compress(n)) == n
  {
    hide Exponent, Mantissa, Pow10, Expand;
    if n > 0 {
      var m := Mantissa(n, 0);
      ExpandBack(m / 10, m % 10, Exponent(n, 0));
    }
  }

  /** And compression undoes decompression: every number is the compact form of one amount. */
  lemma DecompressedBack(x: nat)
    ensures Compress(Decompress(x)) == x
  {
    if x > 0 {
      var m, e := Expand(x).0, Expand(x).1;
      Unique(m, e, 0);
      var y := (x - 1) / 10;
      if e < 9 {
        assert m / 10 == y / 9 && m % 10 == y % 9 + 1;
        assert m / 10 * 9 + m % 10 - 1 == y;
      }
    }
  }

  /** No amount of money overflows 64 bits in its compact form. */
  lemma CompressedFits(n: nat)
    requires n <= MAX_MONEY
    ensures Compress(n) <= 9 * n + 91 < TWO_64
  {
    if n > 0 {
      var e, m := Exponent(n, 0), Mantissa(n, 0);
      if e == 9 {
        assert Pow10(9) == 1_000_000_000;
        assert n == m * 1_000_000_000;
      }
    }
  }

  /** Unsigned 64-bit arithmetic; reducing once at the end is the same as at every step. */
  function Wrap(n: nat): Uint64 {
    n % TWO_64
  }

  method CompressAmount(nAmount: Uint64) returns (x: Uint64)
    ensures x == Wrap(Compress(nAmount))
  {
    if nAmount == 0 { return 0; }
    var n: Uint64, e: nat := nAmount, 0;
    while n % 10 == 0 && e < 9
      invariant 0 < n <= nAmount && e <= 9
      invariant Exponent(n, e) == Exponent(nAmount, 0) && Mantissa(n, e) == Mantissa(nAmount, 0)
      decreases 9 - e
    {
      n := n / 10;
      e := e + 1;
    }
    if e < 9 {
      var d := n % 10;
      n := n / 10;
      return Wrap(1 + (n * 9 + d - 1) * 10 + e);
    }
    return Wrap(1 + (n - 1) * 10 + 9);
  }

  lemma CompressedUnwrapped(n: nat)
    requires n <= MAX_MONEY
    ensures Wrap(Compress(n)) == Compress(n)
  {
    hide Compress;
    CompressedFits(n);
  }

  method DecompressAmount(x: Uint64) returns (n: Uint64)
    ensures n == Wrap(Decompress(x))
  {
    if x == 0 { return 0; }
    var y: Uint64 := x - 1;
    var e: nat := y % 10;
    y := y / 10;
    n := 0;
    if e < 9 {
      var d := y % 9 + 1;
      y := y / 9;
      n := y * 10 + d;
    } else {
      n := y + 1;
    }
    assert (n, e) == Expand(x);
    hide Expand;
    n := Scale(n, e);
  }

  /** The last loop of DecompressAmount. */
  method Scale(m: Uint64, k: nat) returns (n: Uint64)
    ensures n == Wrap(m * Pow10(k))
  {
    hide Wrap, Pow10;
    n := m;
    var e: nat := k;
    while e > 0
      invariant e <= k && Wrap(n * Pow10(e)) == Wrap(m * Pow10(k))
    {
      ScaleStep(n, e);
      n := Wrap(n * 10);
      e := e - 1;
    }
    WrapOnce(n);
  }

  lemma ScaleStep(n: nat, e: nat)
    requires e > 0
    ensures Wrap(Wrap(n * 10) * Pow10(e - 1)) == Wrap(n * Pow10(e))
  {
    var p := Pow10(e - 1);
    assert Pow10(e) == 10 * p;
    hide Wrap, Pow10;
    TenMoved(n, p);
    WrapTimes(n * 10, p);
  }

  lemma TenMoved(n: nat, p: nat)
    ensures n * (10 * p) == n * 10 * p
  {
  }

  lemma WrapOnce(n: Uint64)
    ensures Wrap(n * Pow10(0)) == n
  {
  }

  lemma WrapTimes(a: nat, p: nat)
    ensures Wrap(Wrap(a) * p) == Wrap(a * p)
  {
    var q, r := a / TWO_64, a % TWO_64;
    Distribute(q, r, p);
    WrapOff(q * p, r * p);
  }

  lemma Distribute(q: nat, r: nat, p: nat)
    ensures (q * TWO_64 + r) * p == q * p * TWO_64 + r * p
  {
  }

  lemma WrapOff(k: nat, r: nat)
    ensures Wrap(k * TWO_64 + r) == Wrap(r)
  {
    DivBounds(r, TWO_64);
    var q := r / TWO_64;
    DivIs(k * TWO_64 + r, TWO_64, k + q);
  }
}
