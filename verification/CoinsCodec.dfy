/** The stored form of coins and undo records: variable-length integers, the unspentness mask, compact
    amounts (src/coins.h, src/coins.cpp, src/core.h, src/serialize.h). */
module CoinsCodec {
  import opened Core
  import opened Coins
  import opened Amount
  import opened Bits

  /** A stream: bytes of variable-length integers, mask bytes, and scripts, which round trip as they are. */
  datatype Token = Byte(n: nat) | Mask(b: bv8) | Text(script: Script)

  type Stream = seq<Token>

  /** A value read and what is left of the stream, unless that was not what it held. */
  datatype Read<T> = Got(value: T, rest: Stream) | Failed

  // ---- variable-length integers ----

  /** The bytes, most significant first; flag is 128 in all but the last. A negative number keeps only its
      low seven bits. */
  function VarInt(n: int, flag: nat): Stream
    decreases if n < 0 then 0 else n
  {
    if n <= 0x7F then [Byte(n % 128 + flag)] else VarInt(n / 128 - 1, 128) + [Byte(n % 128 + flag)]
  }

  function ReadVar(s: Stream, n: nat): Read<nat> {
    if s == [] || !s[0].Byte? then Failed
    else if s[0].n >= 128 then ReadVar(s[1..], n * 128 + s[0].n % 128 + 1)
    else Got(n * 128 + s[0].n % 128, s[1..])
  }

  lemma NextByte(low: nat, rest: Stream, n: nat)
    requires low < 128
    ensures ReadVar([Byte(low + 128)] + rest, n) == ReadVar(rest, n * 128 + low + 1)
    ensures ReadVar([Byte(low)] + rest, n) == Got(n * 128 + low, rest)
  {
    assert ([Byte(low + 128)] + rest)[1..] == rest && ([Byte(low)] + rest)[1..] == rest;
  }

  /** The leading bytes of a number bring the reader to one more than that number. */
  lemma {:induction false} HighBytes(n: nat, rest: Stream)
    ensures ReadVar(VarInt(n, 128) + rest, 0) == ReadVar(rest, n + 1)
    decreases n
  {
    hide ReadVar;
    var low := Byte(n % 128 + 128);
    NextByte(n % 128, rest, if n > 0x7F then n / 128 else 0);
    if n > 0x7F {
      assert VarInt(n, 128) + rest == VarInt(n / 128 - 1, 128) + ([low] + rest);
      HighBytes(n / 128 - 1, [low] + rest);
    }
  }

  lemma VarIntBack(n: int, rest: Stream)
    ensures ReadVar(VarInt(n, 0) + rest, 0) == Got(if n < 0 then n % 128 else n, rest)
  {
    hide ReadVar;
    var low := Byte(n % 128);
    NextByte(n % 128, rest, if n > 0x7F then n / 128 else 0);
    if n > 0x7F {
      assert VarInt(n, 0) + rest == VarInt(n / 128 - 1, 128) + ([low] + rest);
      HighBytes(n / 128 - 1, [low] + rest);
    }
  }

  /** The seven-bit groups of a number, least significant first, flagged but for the first. */
  method Groups(n: int) returns (tmp: seq<nat>)
    ensures tmp != [] && VarInt(n, 0) == Backwards(tmp)
  {
    var m := n;
    tmp := [];
    while m > 0x7F
      invariant |tmp| > 0 ==> m >= 0
      invariant VarInt(n, 0) == VarInt(m, if tmp == [] then 0 else 128) + Backwards(tmp)
      decreases if m < 0 then 0 else m
    {
      var group: nat := m % 128 + if tmp == [] then 0 else 128;
      BackwardsNext(tmp, group);
      assert VarInt(m, group - m % 128) == VarInt(m / 128 - 1, 128) + [Byte(group)];
      tmp := tmp + [group];
      m := m / 128 - 1;
    }
    var last: nat := m % 128 + if tmp == [] then 0 else 128;
    BackwardsNext(tmp, last);
    tmp := tmp + [last];
  }

  lemma BackwardsNext(tmp: seq<nat>, group: nat)
    ensures Backwards(tmp + [group]) == [Byte(group)] + Backwards(tmp)
  {
    assert (tmp + [group])[..|tmp|] == tmp;
  }

  method WriteVarInt(n: int) returns (out: Stream)
    ensures out == VarInt(n, 0)
  {
    var tmp := Groups(n);
    hide VarInt;
    var len := |tmp| - 1;
    assert tmp[..len + 1] == tmp;
    out := [];
    while len >= 0
      invariant -1 <= len < |tmp|
      invariant Backwards(tmp) == out + Backwards(tmp[..len + 1])
    {
      assert tmp[..len + 1] == tmp[..len] + [tmp[len]];
      BackwardsNext(tmp[..len], tmp[len]);
      out := out + [Byte(tmp[len])];
      len := len - 1;
    }
  }

  function Backwards(tmp: seq<nat>): Stream {
    if tmp == [] then [] else [Byte(tmp[|tmp| - 1])] + Backwards(tmp[..|tmp| - 1])
  }

  method ReadVarInt(s: Stream) returns (r: Read<nat>)
    ensures r == ReadVar(s, 0)
  {
    var n: nat, i := 0, 0;
    while true
      invariant 0 <= i <= |s| && ReadVar(s, 0) == ReadVar(s[i..], n)
      decreases |s| - i
    {
      if i == |s| || !s[i].Byte? { return Failed; }
      assert s[i..][1..] == s[i + 1..];
      n := n * 128 + s[i].n % 128;
      if s[i].n < 128 { return Got(n, s[i + 1..]); }
      n := n + 1;
      i := i + 1;
    }
  }

  // ---- the mask ----

  /** The first k bits of mask byte b: which of outputs 2 + 8b, ... are unspent. */
  function MaskByte(vout: seq<TxOut>, b: nat, k: nat): (m: bv8)
    requires k <= 8
  {
    if k == 0 then 0
    else if IsSpendable(vout, 2 + 8 * b + k - 1) then MaskByte(vout, b, k - 1) | BitMask(k - 1)
    else MaskByte(vout, b, k - 1)
  }

  predicate IsSpendable(vout: seq<TxOut>, i: nat) {
    i < |vout| && !vout[i].IsNull()
  }

  lemma {:induction false} MaskBits(vout: seq<TxOut>, b: nat, k: nat, p: nat)
    requires k <= 8 && p < 8
    ensures BitOf(MaskByte(vout, b, k), p) <==> p < k && IsSpendable(vout, 2 + 8 * b + p)
  {
    hide BitOf;
    if k == 0 {
      ZeroByte(p);
    } else {
      MaskBits(vout, b, k - 1, p);
      SetBit(MaskByte(vout, b, k - 1), k - 1, p);
    }
  }

  /** A byte without bits is zero. */
  lemma ZeroMask(b: bv8)
    ensures b == 0 <==> forall p :: 0 <= p < 8 ==> !BitOf(b, p)
  {
    if b != 0 {
      assert BitOf(b, 0) || BitOf(b, 1) || BitOf(b, 2) || BitOf(b, 3)
        || BitOf(b, 4) || BitOf(b, 5) || BitOf(b, 6) || BitOf(b, 7);
    }
  }

  /** Bit i of mask byte b is due. */
  predicate BitDue(vout: seq<TxOut>, b: nat, i: nat) {
    IsSpendable(vout, 2 + 8 * b + i)
  }

  /** Some output of mask byte b is unspent. */
  ghost predicate Used(vout: seq<TxOut>, b: nat) {
    exists i :: 0 <= i < 8 && BitDue(vout, b, i)
  }

  lemma UsedByte(vout: seq<TxOut>, b: nat)
    ensures Used(vout, b) <==> MaskByte(vout, b, 8) != 0
  {
    forall p | 0 <= p < 8 ensures BitOf(MaskByte(vout, b, 8), p) <==> BitDue(vout, b, p) {
      MaskBits(vout, b, 8, p);
    }
    ZeroMask(MaskByte(vout, b, 8));
    hide BitOf;
  }

  /** One past the last used byte below n. */
  function LastUsed(vout: seq<TxOut>, n: nat): (r: nat)
    ensures r <= n
  {
    if n == 0 then 0 else if MaskByte(vout, n - 1, 8) != 0 then n else LastUsed(vout, n - 1)
  }

  /** How many of the bytes from b to n are used. */
  function CountUsed(vout: seq<TxOut>, b: nat, n: nat): (r: nat)
    requires b <= n
    decreases n - b
  {
    if b == n then 0 else (if MaskByte(vout, b, 8) != 0 then 1 else 0) + CountUsed(vout, b + 1, n)
  }

  lemma {:induction false} CountUsedLast(vout: seq<TxOut>, b: nat, n: nat)
    requires b < n
    ensures CountUsed(vout, b, n) == CountUsed(vout, b, n - 1) + if MaskByte(vout, n - 1, 8) != 0 then 1 else 0
    decreases n - b
  {
    if b + 1 < n { CountUsedLast(vout, b + 1, n); }
  }

  /** Number of bytes that hold bits of outputs. */
  function MaskSpan(vout: seq<TxOut>): nat {
    if |vout| <= 2 then 0 else (|vout| - 2 + 7) / 8
  }

  method CalcMaskSize(vout: seq<TxOut>) returns (nBytes: nat, nNonzeroBytes: nat)
    ensures nBytes == LastUsed(vout, MaskSpan(vout))
    ensures nNonzeroBytes == CountUsed(vout, 0, MaskSpan(vout))
  {
    var nLastUsedByte, b := 0, 0;
    nNonzeroBytes := 0;
    while 2 + b * 8 < |vout|
      invariant b <= MaskSpan(vout)
      invariant nLastUsedByte == LastUsed(vout, b) && nNonzeroBytes == CountUsed(vout, 0, b)
    {
      var fZero := true;
      for i := 0 to 8
        invariant fZero <==> forall j :: 0 <= j < i ==> !BitDue(vout, b, j)
      {
        if 2 + b * 8 + i < |vout| && !vout[2 + b * 8 + i].IsNull() {
          assert BitDue(vout, b, i);
          fZero := false;
        } else {
          assert !BitDue(vout, b, i);
        }
      }
      UsedByte(vout, b);
      CountUsedLast(vout, 0, b + 1);
      if !fZero {
        nLastUsedByte := b + 1;
        nNonzeroBytes := nNonzeroBytes + 1;
      }
      b := b + 1;
    }
    nBytes := nLastUsedByte;
  }

  /** Mask bytes b to n. */
  function MaskBytes(vout: seq<TxOut>, b: nat, n: nat): Stream
    requires b <= n
    decreases n - b
  {
    if b == n then [] else [Mask(MaskByte(vout, b, 8))] + MaskBytes(vout, b + 1, n)
  }

  /** The availability of the first len outputs. */
  function Avail(vout: seq<TxOut>, len: nat): (a: seq<bool>)
    ensures |a| == len && forall i :: 0 <= i < len ==> a[i] == IsSpendable(vout, i)
  {
    seq(len, i requires i >= 0 => IsSpendable(vout, i))
  }

  function ByteBits(b: bv8): seq<bool> {
    seq(8, p requires 0 <= p < 8 => BitOf(b, p))
  }

  /** Read mask bytes until so many nonzero ones have come. */
  function ReadMask(s: Stream, nMaskCode: nat, vAvail: seq<bool>): Read<seq<bool>>
    decreases |s|
  {
    if nMaskCode == 0 then Got(vAvail, s)
    else if s == [] || !s[0].Mask? then Failed
    else ReadMask(s[1..], if s[0].b != 0 then nMaskCode - 1 else nMaskCode, vAvail + ByteBits(s[0].b))
  }

  lemma AvailNext(vout: seq<TxOut>, b: nat)
    ensures Avail(vout, 2 + 8 * b) + ByteBits(MaskByte(vout, b, 8)) == Avail(vout, 2 + 8 * (b + 1))
  {
    hide MaskByte, IsSpendable, Avail, ByteBits;
    var bits := ByteBits(MaskByte(vout, b, 8));
    ByteAvail(vout, b);
    var l, r := Avail(vout, 2 + 8 * b) + bits, Avail(vout, 2 + 8 * (b + 1));
    forall i | 0 <= i < |r| ensures l[i] == r[i] {
      if i >= 2 + 8 * b { assert l[i] == bits[i - (2 + 8 * b)]; }
    }
  }

  lemma ByteAvail(vout: seq<TxOut>, b: nat)
    ensures var bits := ByteBits(MaskByte(vout, b, 8));
      |bits| == 8 && forall p :: 0 <= p < 8 ==> bits[p] == IsSpendable(vout, 2 + 8 * b + p)
  {
    forall p | 0 <= p < 8 ensures ByteBits(MaskByte(vout, b, 8))[p] == IsSpendable(vout, 2 + 8 * b + p) {
      MaskBits(vout, b, 8, p);
    }
  }

  /** Since the last byte written is used, the reader stops right after it. */
  lemma {:induction false} MaskBack(vout: seq<TxOut>, b: nat, n: nat, rest: Stream)
    requires b <= n && (n > 0 ==> MaskByte(vout, n - 1, 8) != 0)
    ensures ReadMask(MaskBytes(vout, b, n) + rest, CountUsed(vout, b, n), Avail(vout, 2 + 8 * b))
      == Got(Avail(vout, 2 + 8 * n), rest)
    decreases n - b
  {
    if b == n {
      assert MaskBytes(vout, b, n) + rest == rest;
    } else {
      hide MaskByte, Avail, ByteBits;
      var later := MaskBytes(vout, b + 1, n) + rest;
      assert MaskBytes(vout, b, n) + rest == [Mask(MaskByte(vout, b, 8))] + later;
      assert ([Mask(MaskByte(vout, b, 8))] + later)[1..] == later;
      CountUsedLast(vout, b, n);
      AvailNext(vout, b);
      MaskBack(vout, b + 1, n, rest);
    }
  }

  // ---- the outputs ----

  function OutTokens(vout: seq<TxOut>, i: nat): Stream
    requires i <= |vout|
    decreases |vout| - i
  {
    if i == |vout| then []
    else if vout[i].IsNull() then OutTokens(vout, i + 1)
    else OneOut(vout[i]) + OutTokens(vout, i + 1)
  }

  /** A value as the program's unsigned type holds it. */
  function Unsigned(nValue: int): Uint64 {
    nValue % TWO_64
  }

  function OneOut(out: TxOut): Stream {
    VarInt(Wrap(Compress(Unsigned(out.nValue))), 0) + [Text(out.scriptPubKey)]
  }

  /** Read the outputs that are available from the i-th on; the others stay null. */
  function ReadOuts(s: Stream, vAvail: seq<bool>, i: nat, vout: seq<TxOut>): Read<seq<TxOut>>
    requires i <= |vAvail|
    decreases |vAvail| - i
  {
    if i == |vAvail| then Got(vout, s)
    else if !vAvail[i] then ReadOuts(s, vAvail, i + 1, vout + [NULL_TXOUT])
    else
      match ReadVar(s, 0)
      case Failed => Failed
      case Got(n, s1) =>
        if s1 == [] || !s1[0].Text? then Failed
        else ReadOuts(s1[1..], vAvail, i + 1, vout + [TxOut(Decompress(n), s1[0].script)])
  }

  lemma OneOutBack(out: TxOut, rest: Stream)
    requires MoneyRange(out.nValue)
    ensures ReadVar(OneOut(out) + rest, 0) == Got(Compress(out.nValue), [Text(out.scriptPubKey)] + rest)
    ensures Decompress(Compress(out.nValue)) == out.nValue
  {
    hide Wrap, Compress, Decompress;
    assert Unsigned(out.nValue) == out.nValue;
    CompressedUnwrapped(out.nValue);
    assert OneOut(out) + rest == VarInt(Compress(out.nValue), 0) + ([Text(out.scriptPubKey)] + rest);
    VarIntBack(Compress(out.nValue), [Text(out.scriptPubKey)] + rest);
    CompressedBack(out.nValue);
  }

  /** Tokens from the i-th output on; outputs beyond the list have none. */
  function TokensFrom(vout: seq<TxOut>, i: nat): Stream {
    if i <= |vout| then OutTokens(vout, i) else []
  }

  function TokensOf(vout: seq<TxOut>, i: nat): Stream {
    if IsSpendable(vout, i) then OneOut(vout[i]) else []
  }

  lemma TokensNext(vout: seq<TxOut>, i: nat, rest: Stream)
    ensures TokensFrom(vout, i) + rest == TokensOf(vout, i) + (TokensFrom(vout, i + 1) + rest)
  {
    hide OneOut;
  }

  /** Reading one output that is available, or passing over one that is not. */
  lemma ReadNext(vout: seq<TxOut>, a: seq<bool>, i: nat, later: Stream, done: seq<TxOut>)
    requires i < |a| && (a[i] <==> IsSpendable(vout, i)) && (i < |vout| && a[i] ==> MoneyRange(vout[i].nValue))
    ensures ReadOuts(TokensOf(vout, i) + later, a, i, done) ==
      ReadOuts(later, a, i + 1, done + [if a[i] then vout[i] else NULL_TXOUT])
  {
    if a[i] {
      hide OneOut, ReadVar, Compress, Decompress;
      OneOutBack(vout[i], later);
      var s1 := [Text(vout[i].scriptPubKey)] + later;
      assert s1[1..] == later;
    } else {
      assert TokensOf(vout, i) + later == later;
    }
  }

  /** Outputs, padded with nulls up to the length of the mask, come back. */
  lemma {:induction false} OutsBack(vout: seq<TxOut>, len: nat, i: nat, rest: Stream)
    requires i <= len && |vout| <= len
    requires forall j :: 0 <= j < |vout| ==> vout[j] == NULL_TXOUT || MoneyRange(vout[j].nValue)
    ensures ReadOuts(TokensFrom(vout, i) + rest, Avail(vout, len), i, Resized(vout, len)[..i])
      == Got(Resized(vout, len), rest)
    decreases len - i
  {
    hide TokensOf, OutTokens;
    var padded, a := Resized(vout, len), Avail(vout, len);
    if i == len {
      assert TokensFrom(vout, i) + rest == rest by { NoTokens(vout, i); }
      assert padded[..i] == padded;
    } else {
      hide ReadOuts, TokensFrom;
      TokensNext(vout, i, rest);
      ReadNext(vout, a, i, TokensFrom(vout, i + 1) + rest, padded[..i]);
      assert padded[..i] + [if a[i] then vout[i] else NULL_TXOUT] == padded[..i + 1];
      OutsBack(vout, len, i + 1, rest);
    }
  }

  lemma NoTokens(vout: seq<TxOut>, i: nat)
    requires i >= |vout|
    ensures TokensFrom(vout, i) == []
  {
  }

  // ---- whole entries ----

  function MaskSize(vout: seq<TxOut>): nat {
    LastUsed(vout, MaskSpan(vout))
  }

  function MaskCode(vout: seq<TxOut>): nat {
    CountUsed(vout, 0, MaskSpan(vout))
  }

  /** Something is unspent. */
  predicate HasCoins(c: Coins) {
    IsSpendable(c.vout, 0) || IsSpendable(c.vout, 1) || MaskCode(c.vout) > 0
  }

  /** The header code: coinbase flag, the first two outputs, and how many nonzero mask bytes follow. */
  function HeaderCode(c: Coins): nat
    requires HasCoins(c)
  {
    var fFirst, fSecond := IsSpendable(c.vout, 0), IsSpendable(c.vout, 1);
    8 * (MaskCode(c.vout) - if fFirst || fSecond then 0 else 1)
    + (if c.fCoinBase then 1 else 0) + (if fFirst then 2 else 0) + (if fSecond then 4 else 0)
  }

  function Serialized(c: Coins): Stream
    requires HasCoins(c)
  {
    VarInt(c.nVersion, 0) + (VarInt(HeaderCode(c), 0) + Body(c))
  }

  /** Mask, outputs and height. */
  function Body(c: Coins): Stream {
    MaskBytes(c.vout, 0, MaskSize(c.vout)) + (OutTokens(c.vout, 0) + VarInt(c.nHeight, 0))
  }

  /** What follows the version. */
  function ParsedAfter(nVersion: nat, s: Stream): Read<Coins> {
    match ReadVar(s, 0)
    case Failed => Failed
    case Got(nCode, s1) =>
      var nMaskCode := nCode / 8 + if nCode / 2 % 4 != 0 then 0 else 1;
      BodyParsed(nVersion, nCode % 2 == 1, s1, nMaskCode, [nCode / 2 % 2 == 1, nCode / 4 % 2 == 1])
  }

  function BodyParsed(nVersion: nat, fCoinBase: bool, s1: Stream, nMaskCode: nat, firstTwo: seq<bool>): Read<Coins> {
    match ReadMask(s1, nMaskCode, firstTwo)
    case Failed => Failed
    case Got(vAvail, s2) =>
      match ReadOuts(s2, vAvail, 0, [])
      case Failed => Failed
      case Got(vout, s3) =>
        match ReadVar(s3, 0)
        case Failed => Failed
        case Got(nHeight, s4) => Got(Coins(fCoinBase, Trim(vout), nHeight, nVersion), s4)
  }

  function Parsed(s: Stream): Read<Coins> {
    match ReadVar(s, 0)
    case Failed => Failed
    case Got(nVersion, s1) => ParsedAfter(nVersion, s1)
  }

  lemma {:induction false} LastUsedFacts(vout: seq<TxOut>, n: nat)
    ensures var l := LastUsed(vout, n); l > 0 ==> MaskByte(vout, l - 1, 8) != 0
    ensures CountUsed(vout, 0, LastUsed(vout, n)) == CountUsed(vout, 0, n)
    ensures forall b :: LastUsed(vout, n) <= b < n ==> MaskByte(vout, b, 8) == 0
  {
    if n > 0 && MaskByte(vout, n - 1, 8) == 0 {
      LastUsedFacts(vout, n - 1);
      CountUsedLast(vout, 0, n);
    }
  }

  /** Entries that come back: something unspent, values in range, spent outputs cleared. */
  ghost predicate Writable(c: Coins) {
    !c.IsPruned() && forall i :: 0 <= i < |c.vout| ==> (c.vout[i] == NULL_TXOUT || MoneyRange(c.vout[i].nValue))
  }

  lemma GoodWritable(c: Coins)
    requires GoodCoins(c)
    ensures Writable(c)
  {
    assert !c.vout[|c.vout| - 1].IsNull();
  }

  /** An entry that is not fully spent has something to write. */
  lemma SomethingLeft(c: Coins)
    requires !c.IsPruned()
    ensures HasCoins(c)
  {
    var k :| 0 <= k < |c.vout| && !c.vout[k].IsNull();
    assert IsSpendable(c.vout, k);
    if k >= 2 {
      var b := (k - 2) / 8;
      assert BitDue(c.vout, b, k - 2 - 8 * b);
      UsedByte(c.vout, b);
      UsedCounted(c.vout, 0, b, MaskSpan(c.vout));
    }
  }

  lemma {:induction false} UsedCounted(vout: seq<TxOut>, a: nat, b: nat, n: nat)
    requires a <= b < n && MaskByte(vout, b, 8) != 0
    ensures CountUsed(vout, a, n) > 0
    decreases n - a
  {
    if a < b { UsedCounted(vout, a + 1, b, n); }
  }

  /** A trimmed list of outputs ends within the last used byte. */
  lemma MaskCovers(vout: seq<TxOut>)
    requires vout != [] && !vout[|vout| - 1].IsNull()
    ensures |vout| <= 2 + 8 * MaskSize(vout)
  {
    var last := |vout| - 1;
    assert IsSpendable(vout, last);
    if last >= 2 {
      var b := MaskSpan(vout) - 1;
      assert BitDue(vout, b, last - 2 - 8 * b);
      UsedByte(vout, b);
    }
  }

  lemma TrimPadded(vout: seq<TxOut>, len: nat)
    requires |vout| <= len && (vout == [] || !vout[|vout| - 1].IsNull())
    ensures Trim(Resized(vout, len)) == vout
  {
    var t := Trim(Resized(vout, len));
    assert forall i :: |vout| <= i < len ==> Resized(vout, len)[i].IsNull();
    if |vout| > 0 { assert Resized(vout, len)[|vout| - 1] == vout[|vout| - 1]; }
  }

  lemma CodeBits(c: Coins)
    requires HasCoins(c)
    ensures var nCode := HeaderCode(c);
      && nCode / 8 + (if nCode / 2 % 4 != 0 then 0 else 1) == MaskCode(c.vout)
      && (nCode % 2 == 1 <==> c.fCoinBase)
      && [nCode / 2 % 2 == 1, nCode / 4 % 2 == 1] == Avail(c.vout, 2)
  {
    var f, g := if IsSpendable(c.vout, 0) then 1 else 0, if IsSpendable(c.vout, 1) then 1 else 0;
    var h := MaskCode(c.vout) - if f + g > 0 then 0 else 1;
    var nCode := HeaderCode(c);
    assert nCode == 8 * h + (if c.fCoinBase then 1 else 0) + 2 * f + 4 * g;
    assert nCode / 2 == 4 * h + f + 2 * g && nCode / 4 == 2 * h + g && nCode / 8 == h;
  }

  lemma BodyBack(c: Coins, nVersion: nat, rest: Stream)
    requires Writable(c) && !c.vout[|c.vout| - 1].IsNull()
    ensures BodyParsed(nVersion, c.fCoinBase, Body(c) + rest, MaskCode(c.vout), Avail(c.vout, 2))
      == Got(c.(nVersion := nVersion), rest)
  {
    hide ReadVar, ReadMask, ReadOuts, VarInt, MaskBytes, OutTokens, Avail, Resized, Trim, CountUsed, LastUsed, HasCoins,
      IsSpendable, MaskSpan;
    MaskCovers(c.vout);
    var len := 2 + 8 * MaskSize(c.vout);
    var s4 := VarInt(c.nHeight, 0) + rest;
    var s3 := OutTokens(c.vout, 0) + s4;
    assert Body(c) + rest == MaskBytes(c.vout, 0, MaskSize(c.vout)) + s3;
    LastUsedFacts(c.vout, MaskSpan(c.vout));
    MaskBack(c.vout, 0, MaskSize(c.vout), s3);
    OutsBack(c.vout, len, 0, s4);
    assert Resized(c.vout, len)[..0] == [];
    VarIntBack(c.nHeight, rest);
    TrimPadded(c.vout, len);
  }

  /** Reading back an entry gives the entry, except that a negative version keeps only its low seven bits. */
  lemma CoinsBack(c: Coins, rest: Stream)
    requires Writable(c) && !c.vout[|c.vout| - 1].IsNull()
    ensures HasCoins(c)
    ensures Parsed(Serialized(c) + rest) == Got(Stored(c), rest)
  {
    hide ReadVar, VarInt, HeaderCode, Body, BodyParsed, HasCoins, MaskCode, Avail;
    SomethingLeft(c);
    var s1 := VarInt(HeaderCode(c), 0) + (Body(c) + rest);
    assert Serialized(c) + rest == VarInt(c.nVersion, 0) + s1;
    VarIntBack(c.nVersion, s1);
    VarIntBack(HeaderCode(c), Body(c) + rest);
    CodeBits(c);
    BodyBack(c, StoredVersion(c.nVersion), rest);
  }

  /** An entry of the coin database survives storage exactly when its version is not negative. */
  lemma StoredExactly(c: Coins, rest: Stream)
    requires GoodCoins(c)
    ensures HasCoins(c) && (Parsed(Serialized(c) + rest) == Got(c, rest) <==> c.nVersion >= 0)
  {
    GoodWritable(c);
    CoinsBack(c, rest);
  }

  // ---- the stream code ----

  method WriteMask(vout: seq<TxOut>, nMaskSize: nat) returns (out: Stream)
    requires nMaskSize <= MaskSpan(vout)
    ensures out == MaskBytes(vout, 0, nMaskSize)
  {
    out := [];
    for b := 0 to nMaskSize
      invariant out + MaskBytes(vout, b, nMaskSize) == MaskBytes(vout, 0, nMaskSize)
    {
      var chAvail: bv8, i := 0, 0;
      while i < 8 && 2 + b * 8 + i < |vout|
        invariant 0 <= i <= 8 && chAvail == MaskByte(vout, b, i)
      {
        if !vout[2 + b * 8 + i].IsNull() { chAvail := chAvail | BitMask(i); }
        i := i + 1;
      }
      PastTheEnd(vout, b, i);
      assert out + ([Mask(chAvail)] + MaskBytes(vout, b + 1, nMaskSize))
          == out + [Mask(chAvail)] + MaskBytes(vout, b + 1, nMaskSize);
      out := out + [Mask(chAvail)];
    }
  }

  lemma {:induction false} PastTheEnd(vout: seq<TxOut>, b: nat, i: nat)
    requires i <= 8 && (i == 8 || 2 + b * 8 + i >= |vout|)
    ensures MaskByte(vout, b, i) == MaskByte(vout, b, 8)
    decreases 8 - i
  {
    if i < 8 { PastTheEnd(vout, b, i + 1); }
  }

  method WriteOut(txout: TxOut) returns (out: Stream)
    ensures out == OneOut(txout)
  {
    hide Wrap, Compress, VarInt;
    var nVal := CompressAmount(Unsigned(txout.nValue));
    var bytes := WriteVarInt(nVal);
    out := bytes + [Text(txout.scriptPubKey)];
  }

  method WriteOuts(vout: seq<TxOut>) returns (out: Stream)
    ensures out == OutTokens(vout, 0)
  {
    hide OneOut;
    out := [];
    for i := 0 to |vout|
      invariant out + OutTokens(vout, i) == OutTokens(vout, 0)
    {
      if !vout[i].IsNull() {
        var one := WriteOut(vout[i]);
        Joined(out, one, OutTokens(vout, i + 1));
        out := out + one;
      }
    }
  }

  lemma Joined(a: Stream, b: Stream, c: Stream)
    ensures a + (b + c) == a + b + c
  {
  }

  method Serialize(c: Coins) returns (out: Stream)
    requires !c.IsPruned()
    ensures HasCoins(c) && out == Serialized(c)
  {
    SomethingLeft(c);
    LastUsedFacts(c.vout, MaskSpan(c.vout));
    var nMaskSize, nMaskCode := CalcMaskSize(c.vout);
    var fFirst, fSecond := |c.vout| > 0 && !c.vout[0].IsNull(), |c.vout| > 1 && !c.vout[1].IsNull();
    var nCode: nat := 8 * (nMaskCode - if fFirst || fSecond then 0 else 1)
      + (if c.fCoinBase then 1 else 0) + (if fFirst then 2 else 0) + (if fSecond then 4 else 0);
    assert nCode == HeaderCode(c);
    hide HeaderCode, VarInt, MaskBytes, OutTokens, CountUsed, MaskSpan;
    var version := WriteVarInt(c.nVersion);
    var code := WriteVarInt(nCode);
    var mask := WriteMask(c.vout, nMaskSize);
    var outs := WriteOuts(c.vout);
    var height := WriteVarInt(c.nHeight);
    out := version + (code + (mask + (outs + height)));
  }

  method UnserializeMask(s: Stream, nMaskCode: nat, vAvail: seq<bool>) returns (r: Read<seq<bool>>)
    ensures r == ReadMask(s, nMaskCode, vAvail)
  {
    var a, code, i := vAvail, nMaskCode, 0;
    while code > 0
      invariant 0 <= i <= |s| && ReadMask(s[i..], code, a) == ReadMask(s, nMaskCode, vAvail)
      decreases |s| - i
    {
      if i == |s| || !s[i].Mask? { return Failed; }
      var chAvail := s[i].b;
      ghost var before := a;
      for p := 0 to 8
        invariant a == before + ByteBits(chAvail)[..p]
      {
        var f := BitOf(chAvail, p);
        a := a + [f];
      }
      assert ByteBits(chAvail)[..8] == ByteBits(chAvail);
      assert s[i..][1..] == s[i + 1..];
      if chAvail != 0 { code := code - 1; }
      i := i + 1;
    }
    r := Got(a, s[i..]);
  }

  method UnserializeOuts(s: Stream, vAvail: seq<bool>) returns (r: Read<seq<TxOut>>)
    ensures r == ReadOuts(s, vAvail, 0, [])
  {
    var vout, rest := seq(|vAvail|, _ => NULL_TXOUT), s;
    for i := 0 to |vAvail|
      invariant |vout| == |vAvail| && forall j :: i <= j < |vout| ==> vout[j] == NULL_TXOUT
      invariant ReadOuts(rest, vAvail, i, vout[..i]) == ReadOuts(s, vAvail, 0, [])
    {
      if vAvail[i] {
        var nVal := ReadVarInt(rest);
        if nVal.Failed? || nVal.rest == [] || !nVal.rest[0].Text? { return Failed; }
        ghost var was := vout;
        vout := vout[i := TxOut(Decompress(nVal.value), nVal.rest[0].script)];
        assert vout[..i + 1] == was[..i] + [vout[i]];
        rest := nVal.rest[1..];
      } else {
        assert vout[..i + 1] == vout[..i] + [NULL_TXOUT];
      }
    }
    assert vout[..|vAvail|] == vout;
    r := Got(vout, rest);
  }

  method Unserialize(s: Stream) returns (r: Read<Coins>)
    ensures r == Parsed(s)
  {
    var nVersion := ReadVarInt(s);
    if nVersion.Failed? { return Failed; }
    var nCode := ReadVarInt(nVersion.rest);
    if nCode.Failed? { return Failed; }
    var fCoinBase := nCode.value % 2 == 1;
    var nMaskCode: nat := nCode.value / 8 + if nCode.value / 2 % 4 != 0 then 0 else 1;
    var vAvail := UnserializeMask(nCode.rest, nMaskCode, [nCode.value / 2 % 2 == 1, nCode.value / 4 % 2 == 1]);
    if vAvail.Failed? { return Failed; }
    var vout := UnserializeOuts(vAvail.rest, vAvail.value);
    if vout.Failed? { return Failed; }
    var nHeight := ReadVarInt(vout.rest);
    if nHeight.Failed? { return Failed; }
    var coins := new CCoins(Coins(fCoinBase, vout.value, nHeight.value, nVersion.value));
    coins.Cleanup();
    var c := coins.Get();
    r := Got(c, nHeight.rest);
  }

  // ---- undo records ----

  function UndoSerialized(u: TxInUndo): Stream {
    VarInt(u.nHeight * 2 + (if u.fCoinBase then 1 else 0), 0)
    + ((if u.nHeight > 0 then VarInt(u.nVersion, 0) else []) + OneOut(u.txout))
  }

  function UndoParsed(s: Stream): Read<TxInUndo> {
    match ReadVar(s, 0)
    case Failed => Failed
    case Got(nCode, s1) =>
      if nCode / 2 > 0 then
        match ReadVar(s1, 0)
        case Failed => Failed
        case Got(nVersion, s2) => UndoOutParsed(nCode, nVersion, s2)
      else UndoOutParsed(nCode, 0, s1)
  }

  function UndoOutParsed(nCode: nat, nVersion: nat, s: Stream): Read<TxInUndo> {
    match ReadVar(s, 0)
    case Failed => Failed
    case Got(n, s1) =>
      if s1 == [] || !s1[0].Text? then Failed
      else Got(TxInUndo(TxOut(Decompress(n), s1[0].script), nCode % 2 == 1, nCode / 2, nVersion), s1[1..])
  }

  /** The undo record of any spend comes back in stored form, unchanged exactly when the version it saves is not
      negative. */
  lemma UndoBack(c: Coins, n: nat, rest: Stream)
    requires GoodCoins(c) && c.IsAvailable(n)
    ensures var u := UndoOfSpend(c, n);
      && UndoParsed(UndoSerialized(u) + rest) == Got(StoredUndo(u), rest)
      && (StoredUndo(u) == u <==> u.nVersion >= 0)
  {
    hide VarInt, ReadVar, OneOut, Compress, Decompress, SpendAt, Trim;
    var u := UndoOfSpend(c, n);
    var nCode := u.nHeight * 2 + if u.fCoinBase then 1 else 0;
    var s2 := OneOut(u.txout) + rest;
    var s1 := (if u.nHeight > 0 then VarInt(u.nVersion, 0) else []) + s2;
    assert UndoSerialized(u) + rest == VarInt(nCode, 0) + s1;
    VarIntBack(nCode, s1);
    VarIntBack(u.nVersion, s2);
    OneOutBack(u.txout, rest);
    assert ([Text(u.txout.scriptPubKey)] + rest)[1..] == rest;
    assert u.nHeight == 0 ==> u.nVersion == 0 && s1 == s2;
  }
}
