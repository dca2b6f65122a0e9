/** Base58 strings and the byte strings they stand for (src/base58.h, src/bignum.h). */
module Base58 {
  import opened Arith
  import opened Blocks

  // ---- positional numbers, most significant digit first ----

  ghost predicate AllBelow(ds: seq<nat>, base: nat) {
    forall i :: 0 <= i < |ds| ==> ds[i] < base
  }

  function Value(ds: seq<nat>, base: nat): nat {
    if ds == [] then 0 else Value(ds[..|ds| - 1], base) * base + ds[|ds| - 1]
  }

  /** The shortest digits of a number; none for 0. */
  function Digits(n: nat, base: nat): (ds: seq<nat>)
    requires base >= 2
    ensures AllBelow(ds, base)
    ensures ds != [] ==> ds[0] != 0
    ensures n > 0 ==> ds != []
  {
    if n == 0 then [] else Digits(n / base, base) + [n % base]
  }

  lemma QuotRem(n: nat, base: nat)
    requires base > 0
    ensures n / base * base + n % base == n
  {
  }

  lemma SplitOff(n: nat, base: nat, q: nat, r: nat)
    requires n > 0 && base >= 2 && q == n / base && r == n % base
    ensures q * base + r == n && q < n
  {
    QuotRem(n, base);
    MulMono(2, base, q);
  }

  lemma ValueNext(ds: seq<nat>, d: nat, base: nat)
    ensures Value(ds + [d], base) == Value(ds, base) * base + d
  {
    assert (ds + [d])[..|ds|] == ds;
  }

  /** The last digit and what is before it. */
  lemma LastDigit(n: nat, base: nat) returns (q: nat, r: nat)
    requires n > 0 && base >= 2
    ensures Digits(n, base) == Digits(q, base) + [r] && q * base + r == n && q < n
  {
    q, r := n / base, n % base;
    SplitOff(n, base, q, r);
  }

  lemma {:induction false} DigitsValue(n: nat, base: nat)
    requires base >= 2
    ensures Value(Digits(n, base), base) == n
  {
    hide Digits;
    if n == 0 {
      NoDigits(base);
    } else {
      var q, r := LastDigit(n, base);
      DigitsValue(q, base);
      hide Value;
      ValueNext(Digits(q, base), r, base);
    }
  }

  lemma NoDigits(base: nat)
    requires base >= 2
    ensures Digits(0, base) == [] && Value([], base) == 0
  {
  }

  lemma DivMod(q: nat, r: nat, base: nat)
    requires r < base
    ensures (q * base + r) / base == q && (q * base + r) % base == r
  {
    var n := q * base + r;
    MulSucc(q, base);
    DivIs(n, base, q);
    assert n == base * (n / base) + n % base;
  }

  lemma {:induction false} ValueDigits(ds: seq<nat>, base: nat)
    requires base >= 2 && AllBelow(ds, base) && (ds != [] ==> ds[0] != 0)
    ensures Digits(Value(ds, base), base) == ds
    ensures ds != [] ==> Value(ds, base) > 0
  {
    if ds != [] {
      var front, last := ds[..|ds| - 1], ds[|ds| - 1];
      ValueDigits(front, base);
      DivMod(Value(front, base), last, base);
      assert ds == front + [last];
      if front != [] { Positive(Value(front, base), base); }
    }
  }

  lemma Positive(a: nat, b: nat)
    requires a > 0 && b > 0
    ensures a * b > 0
  {
  }

  /** How many zeros a list starts with. */
  function Zeros(ds: seq<nat>): (k: nat)
    ensures k <= |ds| && (forall i :: 0 <= i < k ==> ds[i] == 0) && (k < |ds| ==> ds[k] != 0)
  {
    if ds == [] || ds[0] != 0 then 0 else 1 + Zeros(ds[1..])
  }

  function ZeroList(k: nat): (z: seq<nat>)
    ensures |z| == k && forall i :: 0 <= i < k ==> z[i] == 0
  {
    seq(k, _ => 0)
  }

  lemma ZerosAre(ds: seq<nat>, k: nat)
    requires k <= |ds| && (forall i :: 0 <= i < k ==> ds[i] == 0) && (k < |ds| ==> ds[k] != 0)
    ensures Zeros(ds) == k
  {
    var z := Zeros(ds);
    assert z < |ds| ==> ds[z] != 0;
  }

  lemma {:induction false} LeadingZeros(k: nat, ds: seq<nat>, base: nat)
    ensures Value(ZeroList(k) + ds, base) == Value(ds, base)
    decreases |ds|, k
  {
    var all := ZeroList(k) + ds;
    if ds != [] {
      assert all[..|all| - 1] == ZeroList(k) + ds[..|ds| - 1];
      LeadingZeros(k, ds[..|ds| - 1], base);
    } else if k > 0 {
      assert all[..|all| - 1] == ZeroList(k - 1) + ds;
      LeadingZeros(k - 1, ds, base);
    }
  }

  /** The same number in another base, every leading zero kept as one zero. */
  function Convert(ds: seq<nat>, base: nat, to: nat): (r: seq<nat>)
    requires to >= 2
    ensures AllBelow(r, to)
  {
    ZeroList(Zeros(ds)) + Digits(Value(ds, base), to)
  }

  /** Conversion loses nothing: there and back is the identity on every list of digits. */
  lemma ConvertBack(ds: seq<nat>, base: nat, to: nat)
    requires base >= 2 && to >= 2 && AllBelow(ds, base)
    ensures Convert(Convert(ds, base, to), to, base) == ds
  {
    var k := Zeros(ds);
    var rest := ds[k..];
    assert ds == ZeroList(k) + rest;
    LeadingZeros(k, rest, base);
    var n := Value(ds, base);
    var c := Convert(ds, base, to);
    ZerosAre(c, k);
    LeadingZeros(k, Digits(n, to), to);
    DigitsValue(n, to);
    ValueDigits(rest, base);
  }

  // ---- the alphabet ----

  /** The alphabet in order: the digits but 0, the capitals but I and O, the small letters but l. */
  function Char(d: nat): (c: char)
    requires d < 58
  {
    if d < 9 then '1' + d as char
    else if d < 17 then 'A' + (d - 9) as char
    else if d < 22 then 'J' + (d - 17) as char
    else if d < 33 then 'P' + (d - 22) as char
    else if d < 44 then 'a' + (d - 33) as char
    else 'm' + (d - 44) as char
  }

  /** The position of a character in the alphabet, 58 if it has none. */
  function Digit(c: char): (d: nat)
    ensures d <= 58
    ensures d < 58 ==> Char(d) == c
    ensures forall e :: 0 <= e < 58 && Char(e) == c ==> d == e
  {
    if '1' <= c <= '9' then (c - '1') as nat
    else if 'A' <= c <= 'H' then 9 + (c - 'A') as nat
    else if 'J' <= c <= 'N' then 17 + (c - 'J') as nat
    else if 'P' <= c <= 'Z' then 22 + (c - 'P') as nat
    else if 'a' <= c <= 'k' then 33 + (c - 'a') as nat
    else if 'm' <= c <= 'z' then 44 + (c - 'm') as nat
    else 58
  }

  predicate IsSpace(c: char) {
    c == ' ' || '\t' <= c <= '\r'
  }

  predicate IsDigit(c: char) {
    Digit(c) < 58
  }

  function Text(ds: seq<nat>): string
    requires AllBelow(ds, 58)
  {
    seq(|ds|, i requires 0 <= i < |ds| => Char(ds[i]))
  }

  function DigitsOf(s: string): (ds: seq<nat>)
    requires forall i :: 0 <= i < |s| ==> IsDigit(s[i])
    ensures |ds| == |s| && forall i :: 0 <= i < |s| ==> ds[i] == Digit(s[i])
  {
    seq(|s|, i requires 0 <= i < |s| => Digit(s[i]))
  }

  lemma DigitsBelow(s: string)
    requires forall i :: 0 <= i < |s| ==> IsDigit(s[i])
    ensures AllBelow(DigitsOf(s), 58)
  {
    forall i | 0 <= i < |s| ensures DigitsOf(s)[i] < 58 { assert IsDigit(s[i]); }
  }

  /** What EncodeBase58 returns. */
  function Encoded(vch: seq<nat>): string {
    Text(Convert(vch, 256, 58))
  }

  /** The bytes a string of the alphabet stands for. */
  function Decoded(s: string): seq<nat>
    requires forall i :: 0 <= i < |s| ==> IsDigit(s[i])
  {
    Convert(DigitsOf(s), 58, 256)
  }

  /** Every byte string survives encoding, leading zeros included. */
  lemma EncodedBack(vch: seq<nat>)
    requires AllBelow(vch, 256)
    ensures forall i :: 0 <= i < |Encoded(vch)| ==> IsDigit(Encoded(vch)[i])
    ensures Decoded(Encoded(vch)) == vch
  {
    ConvertBack(vch, 256, 58);
    assert DigitsOf(Encoded(vch)) == Convert(vch, 256, 58);
  }

  /** And every string of the alphabet is the encoding of exactly the bytes it decodes to. */
  lemma DecodedBack(s: string)
    requires forall i :: 0 <= i < |s| ==> IsDigit(s[i])
    ensures AllBelow(Decoded(s), 256) && Encoded(Decoded(s)) == s
  {
    DigitsBelow(s);
    ConvertBack(DigitsOf(s), 58, 256);
    assert Text(DigitsOf(s)) == s;
  }

  // ---- big numbers as bytes, least significant first ----

  function Reverse<T>(s: seq<T>): (r: seq<T>)
    ensures |r| == |s| && forall i :: 0 <= i < |s| ==> r[i] == s[|s| - 1 - i]
  {
    if s == [] then [] else [s[|s| - 1]] + Reverse(s[..|s| - 1])
  }

  /** The bytes of a number, with a zero byte where the top bit would read as a sign. */
  function GetVch(n: nat): seq<nat> {
    var ds := Digits(n, 256);
    Reverse(if ds != [] && ds[0] >= 0x80 then [0] + ds else ds)
  }

  /** The number of bytes without a sign. */
  function SetVch(vch: seq<nat>): nat {
    Value(Reverse(vch), 256)
  }

  // ---- the program ----

  /** A string written backwards, one digit at a time. */
  lemma Appended(d: nat, ds: seq<nat>)
    requires d < 58 && AllBelow(ds, 58)
    ensures AllBelow([d] + ds, 58) && Reverse(Text([d] + ds)) == Reverse(Text(ds)) + [Char(d)]
  {
    assert Text([d] + ds) == [Char(d)] + Text(ds);
  }

  /** The digits of a number, least significant first. */
  method DivideOut(n: nat) returns (str: string)
    ensures str == Reverse(Text(Digits(n, 58)))
  {
    var bn := n;
    str := "";
    ghost var done: seq<nat> := [];
    while bn > 0
      invariant AllBelow(done, 58) && Digits(n, 58) == Digits(bn, 58) + done && str == Reverse(Text(done))
      decreases bn
    {
      var c := bn % 58;
      assert Digits(bn, 58) == Digits(bn / 58, 58) + [c];
      Appended(c, done);
      hide Digits, Reverse, Text;
      assert Digits(bn / 58, 58) + [c] + done == Digits(bn / 58, 58) + ([c] + done);
      done := [c] + done;
      str := str + [Char(c)];
      bn := bn / 58;
    }
  }

  method EncodeBase58(vch: seq<nat>) returns (str: string)
    requires AllBelow(vch, 256)
    ensures str == Encoded(vch)
  {
    var vchTmp := Reverse(vch) + [0];
    assert Reverse(vchTmp) == ZeroList(1) + vch;
    LeadingZeros(1, vch, 256);
    hide Value, Digits, Text;
    str := DivideOut(SetVch(vchTmp));
    ghost var done := Digits(Value(vch, 256), 58);
    str := AppendOnes(vch, str, done);
    str := Reverse(str);
    assert Reverse(Reverse(Text(ZeroList(Zeros(vch)) + done))) == Text(ZeroList(Zeros(vch)) + done);
  }

  /** One '1' for every leading zero byte. */
  method AppendOnes(vch: seq<nat>, s: string, ghost done: seq<nat>) returns (str: string)
    requires AllBelow(done, 58) && s == Reverse(Text(done))
    ensures str == Reverse(Text(ZeroList(Zeros(vch)) + done))
  {
    str := s;
    var p := 0;
    assert ZeroList(0) + done == done;
    hide Reverse, ZeroList, Text;
    while p < |vch| && vch[p] == 0
      invariant p <= Zeros(vch) && AllBelow(ZeroList(p) + done, 58)
      invariant str == Reverse(Text(ZeroList(p) + done))
    {
      OneMore(p, done);
      str := str + [Char(0)];
      p := p + 1;
    }
  }

  lemma OneMore(p: nat, ds: seq<nat>)
    requires AllBelow(ZeroList(p) + ds, 58)
    ensures AllBelow(ZeroList(p + 1) + ds, 58)
    ensures Reverse(Text(ZeroList(p + 1) + ds)) == Reverse(Text(ZeroList(p) + ds)) + [Char(0)]
  {
    assert ZeroList(p + 1) + ds == [0] + (ZeroList(p) + ds);
    Appended(0, ZeroList(p) + ds);
  }

  /** Spaces, then alphabet characters from i to j, then spaces to the end. */
  ghost predicate Splits(s: string, i: nat, j: nat) {
    && i <= j <= |s|
    && (forall k :: 0 <= k < i ==> IsSpace(s[k]))
    && (forall k :: i <= k < j ==> IsDigit(s[k]))
    && forall k :: j <= k < |s| ==> IsSpace(s[k])
  }

  /** psz is a string without a terminating zero inside. */
  method DecodeBase58(psz: string) returns (ok: bool, vchRet: seq<nat>)
    ensures ok <==> exists i: nat, j: nat :: Splits(psz, i, j)
    ensures ok ==> forall i: nat, j: nat :: Splits(psz, i, j) ==> vchRet == Decoded(psz[i..j])
  {
    var start := SkipSpaces(psz, 0);
    var p, bn := ReadDigits(psz, start);
    var q := SkipSpaces(psz, p);
    OneSplit(psz, start, p, q);
    if q < |psz| { return false, []; }
    var vchTmp := TrimSign(bn);
    var nLeadingZeros := CountOnes(psz, start, p);
    return true, ZeroList(nLeadingZeros) + Reverse(vchTmp);
  }

  method SkipSpaces(psz: string, from: nat) returns (p: nat)
    requires from <= |psz|
    ensures from <= p <= |psz| && forall k :: from <= k < p ==> IsSpace(psz[k])
    ensures p < |psz| ==> !IsSpace(psz[p])
  {
    p := from;
    while p < |psz| && IsSpace(psz[p])
      invariant p <= |psz| && forall k :: from <= k < p ==> IsSpace(psz[k])
    {
      p := p + 1;
    }
  }

  lemma NextDigit(psz: string, from: nat, p: nat)
    requires from <= p < |psz| && forall k :: from <= k <= p ==> IsDigit(psz[k])
    ensures Value(DigitsOf(psz[from..p + 1]), 58) == Value(DigitsOf(psz[from..p]), 58) * 58 + Digit(psz[p])
  {
    assert DigitsOf(psz[from..p + 1]) == DigitsOf(psz[from..p]) + [Digit(psz[p])];
    ValueNext(DigitsOf(psz[from..p]), Digit(psz[p]), 58);
    hide Value;
  }

  /** Convert a run of alphabet characters to a number. */
  method ReadDigits(psz: string, from: nat) returns (p: nat, bn: nat)
    requires from <= |psz|
    ensures from <= p <= |psz| && forall k :: from <= k < p ==> IsDigit(psz[k])
    ensures p < |psz| ==> !IsDigit(psz[p])
    ensures bn == Value(DigitsOf(psz[from..p]), 58)
  {
    p, bn := from, 0;
    while p < |psz| && IsDigit(psz[p])
      invariant from <= p <= |psz| && forall k :: from <= k < p ==> IsDigit(psz[k])
      invariant bn == Value(DigitsOf(psz[from..p]), 58)
    {
      NextDigit(psz, from, p);
      hide DigitsOf, Value, Digit;
      bn := bn * 58 + Digit(psz[p]);
      p := p + 1;
    }
  }

  /** The bytes of a number without the sign byte. */
  method TrimSign(bn: nat) returns (vchTmp: seq<nat>)
    ensures Reverse(vchTmp) == Digits(bn, 256)
  {
    vchTmp := GetVch(bn);
    var n := |vchTmp|;
    ghost var ds := Digits(bn, 256);
    if n >= 2 && vchTmp[n - 1] == 0 && vchTmp[n - 2] >= 0x80 {
      vchTmp := vchTmp[..n - 1];
    }
    assert vchTmp == Reverse(ds);
    assert Reverse(Reverse(ds)) == ds;
  }

  method CountOnes(psz: string, start: nat, p: nat) returns (n: nat)
    requires start <= p <= |psz| && forall k :: start <= k < p ==> IsDigit(psz[k])
    requires p < |psz| ==> !IsDigit(psz[p])
    ensures n == Zeros(DigitsOf(psz[start..p]))
  {
    ghost var ds := DigitsOf(psz[start..p]);
    n := 0;
    while start + n < |psz| && psz[start + n] == Char(0)
      invariant start + n <= p && forall i :: 0 <= i < n ==> ds[i] == 0
    {
      assert Digit(psz[start + n]) == 0;
      n := n + 1;
    }
    ZerosAre(ds, n);
  }

  /** No character is both a space and in the alphabet, so there is at most one way to split a string. */
  lemma OneSplit(s: string, start: nat, p: nat, q: nat)
    requires start <= p <= q <= |s|
    requires forall k :: 0 <= k < start ==> IsSpace(s[k])
    requires start < |s| ==> !IsSpace(s[start])
    requires forall k :: start <= k < p ==> IsDigit(s[k])
    requires p < |s| ==> !IsDigit(s[p])
    requires forall k :: p <= k < q ==> IsSpace(s[k])
    requires q < |s| ==> !IsSpace(s[q])
    ensures (exists i: nat, j: nat :: Splits(s, i, j)) <==> q == |s|
    ensures forall i: nat, j: nat :: Splits(s, i, j) ==> s[i..j] == s[start..p]
  {
    if q == |s| { assert Splits(s, start, p); }
    forall k | 0 <= k < |s| && IsSpace(s[k]) ensures !IsDigit(s[k]) {}
    forall i: nat, j: nat | Splits(s, i, j) ensures q == |s| && s[i..j] == s[start..p] {
      assert i <= start;
      if i < j {
        assert IsDigit(s[i]);
        assert i == start && j <= p;
        assert j < |s| ==> !IsDigit(s[j]);
        assert j == p;
      } else {
        assert forall k :: 0 <= k < |s| ==> IsSpace(s[k]);
        assert start == |s|;
      }
    }
  }
}
