/** The worked examples of the source's comments and tests, as facts about the model: they fix the formats that round
    trips alone would leave open. */
module Examples {
  import opened Core
  import opened Coins
  import opened Amount
  import opened CoinsCodec
  import opened Blocks
  import opened Utxo
  import opened SigOps
  import opened Difficulty
  import opened Base58
  import opened Bits

  // ---- variable-length integers (src/serialize.h) ----

  lemma VarIntStep(n: nat, flag: nat)
    requires n > 0x7F
    ensures VarInt(n, flag) == VarInt(n / 128 - 1, 128) + [Byte(n % 128 + flag)]
  {
  }

  lemma VarIntExamples()
    ensures VarInt(0, 0) == [Byte(0x00)] && VarInt(1, 0) == [Byte(0x01)] && VarInt(127, 0) == [Byte(0x7F)]
    ensures VarInt(128, 0) == [Byte(0x80), Byte(0x00)] && VarInt(255, 0) == [Byte(0x80), Byte(0x7F)]
    ensures VarInt(256, 0) == [Byte(0x81), Byte(0x00)] && VarInt(16383, 0) == [Byte(0xFE), Byte(0x7F)]
    ensures VarInt(16384, 0) == [Byte(0xFF), Byte(0x00)]
  {
  }

  lemma VarIntOfTwoTo32()
    ensures VarInt(0x1_0000_0000, 0) == [Byte(0x8E), Byte(0xFE), Byte(0xFE), Byte(0xFF), Byte(0x00)]
  {
    VarIntStep(0x1_0000_0000, 0);
    VarIntStep(0x1FF_FFFF, 128);
    VarIntStep(0x3_FFFE, 128);
    VarIntStep(0x7FE, 128);
  }

  /** The comment gives three bytes for the first and 0xFD in the middle of the second; two bytes and 0xFE are right. */
  lemma VarIntCorrected()
    ensures VarInt(16511, 0) == [Byte(0xFF), Byte(0x7F)]
    ensures VarInt(65535, 0) == [Byte(0x82), Byte(0xFE), Byte(0x7F)]
  {
    VarIntStep(65535, 0);
    VarIntStep(510, 128);
  }

  // ---- compact amounts (src/test/compress_tests.cpp) ----

  lemma Powers()
    ensures Pow10(0) == 1 && Pow10(6) == 1_000_000 && Pow10(8) == COIN && Pow10(9) == 10 * COIN
  {
    assert Pow10(3) == 10 * Pow10(2) == 100 * Pow10(1) == 1000 * Pow10(0);
    assert Pow10(6) == 10 * Pow10(5) == 100 * Pow10(4) == 1000 * Pow10(3);
    assert Pow10(9) == 10 * Pow10(8) == 100 * Pow10(7) == 1000 * Pow10(6);
  }

  lemma DecompressExamples()
    ensures Decompress(0x0) == 0 && Decompress(0x1) == 1 && Decompress(0x7) == COIN / 100 && Decompress(0x9) == COIN
    ensures Decompress(0x32) == 50 * COIN && Decompress(0x140_6f40) == 21_000_000 * COIN
    ensures Decompress(600) == 600 * COIN && Decompress(993_571) == 110_397
    ensures Decompress(2_114_333_561) == 234_925_952
  {
    Powers();
    hide Pow10;
  }

  lemma CompressExamples()
    ensures Compress(0) == 0x0 && Compress(1) == 0x1 && Compress(COIN / 100) == 0x7 && Compress(COIN) == 0x9
    ensures Compress(50 * COIN) == 0x32 && Compress(21_000_000 * COIN) == 0x140_6f40
    ensures Compress(600 * COIN) == 600 && Compress(110_397) == 993_571
    ensures Compress(234_925_952) == 2_114_333_561
  {
    hide Compress, Decompress;
    DecompressExamples();
    DecompressedBack(0x0);
    DecompressedBack(0x1);
    DecompressedBack(0x7);
    DecompressedBack(0x9);
    DecompressedBack(0x32);
    DecompressedBack(0x140_6f40);
    DecompressedBack(600);
    DecompressedBack(993_571);
    DecompressedBack(2_114_333_561);
  }

  // ---- stored coins (src/coins.h) ----

  lemma OneOutIs(out: TxOut, bytes: Stream)
    requires MoneyRange(out.nValue) && VarInt(Compress(out.nValue), 0) == bytes
    ensures OneOut(out) == bytes + [Text(out.scriptPubKey)]
  {
    hide Compress, Wrap, VarInt;
    assert Unsigned(out.nValue) == out.nValue;
    CompressedUnwrapped(out.nValue);
  }

  lemma {:induction false} SkipSpent(vout: seq<TxOut>, i: nat, j: nat)
    requires i <= j <= |vout| && forall k :: i <= k < j ==> vout[k].IsNull()
    ensures OutTokens(vout, i) == OutTokens(vout, j)
    decreases j - i
  {
    hide OneOut;
    if i < j { SkipSpent(vout, i + 1, j); }
  }

  /** A mask byte with one output left. */
  lemma {:induction false} OneBit(vout: seq<TxOut>, b: nat, i: nat, k: nat)
    requires i < 8 && k <= 8 && forall j :: 0 <= j < 8 ==> (BitDue(vout, b, j) <==> j == i)
    ensures MaskByte(vout, b, k) == if k <= i then 0 else BitMask(i)
  {
    hide BitMask;
    if k > 0 {
      OneBit(vout, b, i, k - 1);
      assert IsSpendable(vout, 2 + 8 * b + k - 1) <==> BitDue(vout, b, k - 1);
    }
  }

  lemma VarIntsOfFirst()
    ensures VarInt(1, 0) == [Byte(0x01)] && VarInt(4, 0) == [Byte(0x04)]
    ensures VarInt(600, 0) == [Byte(0x83), Byte(0x58)]
    ensures VarInt(203998, 0) == [Byte(0x8b), Byte(0xb8), Byte(0x5e)]
  {
    VarIntStep(203998, 0);
    VarIntStep(1592, 128);
  }

  /** Output 1 is left, worth 600 coins, at height 203998. */
  lemma FirstCoinsExample(script: Script)
    ensures var c := Coins(false, [NULL_TXOUT, TxOut(600 * COIN, script)], 203998, 1);
      && HasCoins(c)
      && Serialized(c) == [Byte(0x01), Byte(0x04)] + [Byte(0x83), Byte(0x58), Text(script)]
                        + [Byte(0x8b), Byte(0xb8), Byte(0x5e)]
  {
    hide VarInt, OneOut, Compress;
    var vout := [NULL_TXOUT, TxOut(600 * COIN, script)];
    VarIntsOfFirst();
    CompressExamples();
    OneOutIs(vout[1], [Byte(0x83), Byte(0x58)]);
    assert OutTokens(vout, 2) == [];
    assert OutTokens(vout, 1) == OneOut(vout[1]) + [];
    assert OutTokens(vout, 0) == OutTokens(vout, 1);
    assert MaskSize(vout) == 0 && MaskCode(vout) == 0;
  }

  /** Outputs 4 and 16 of a coinbase are left. */
  function SecondOuts(script4: Script, script16: Script): (vout: seq<TxOut>)
    ensures |vout| == 17
    ensures forall k :: 0 <= k < 17 ==> vout[k] == if k == 4 then TxOut(234_925_952, script4)
      else if k == 16 then TxOut(110_397, script16) else NULL_TXOUT
  {
    seq(17, k => if k == 4 then TxOut(234_925_952, script4) else if k == 16 then TxOut(110_397, script16) else NULL_TXOUT)
  }

  lemma SecondMask(vout: seq<TxOut>)
    requires |vout| == 17 && forall k :: 0 <= k < 17 ==> (vout[k].IsNull() <==> k != 4 && k != 16)
    ensures MaskSize(vout) == 2 && MaskCode(vout) == 2
    ensures MaskBytes(vout, 0, 2) == [Mask(0x04), Mask(0x40)]
  {
    OneBit(vout, 0, 2, 8);
    OneBit(vout, 1, 6, 8);
    hide MaskByte;
    assert MaskSpan(vout) == 2;
    assert LastUsed(vout, 2) == 2;
    assert CountUsed(vout, 2, 2) == 0 && CountUsed(vout, 1, 2) == 1 && CountUsed(vout, 0, 2) == 2;
    assert MaskBytes(vout, 2, 2) == [] && MaskBytes(vout, 1, 2) == [Mask(0x40)];
  }

  lemma VarIntsOfSecond()
    ensures VarInt(1, 0) == [Byte(0x01)] && VarInt(9, 0) == [Byte(0x09)]
    ensures VarInt(2_114_333_561, 0) == [Byte(0x86), Byte(0xef), Byte(0x97), Byte(0xd5), Byte(0x79)]
    ensures VarInt(993_571, 0) == [Byte(0xbb), Byte(0xd1), Byte(0x23)]
    ensures VarInt(120_891, 0) == [Byte(0x86), Byte(0xaf), Byte(0x3b)]
  {
    VarIntStep(2_114_333_561, 0);
    VarIntStep(16_518_229, 128);
    VarIntStep(129_047, 128);
    VarIntStep(1_007, 128);
    VarIntStep(993_571, 0);
    VarIntStep(7_761, 128);
    VarIntStep(120_891, 0);
    VarIntStep(943, 128);
  }

  lemma SecondTokens(script4: Script, script16: Script)
    ensures var vout := SecondOuts(script4, script16);
      OutTokens(vout, 0) ==
        [Byte(0x86), Byte(0xef), Byte(0x97), Byte(0xd5), Byte(0x79), Text(script4)]
        + [Byte(0xbb), Byte(0xd1), Byte(0x23), Text(script16)]
  {
    hide VarInt, OneOut, Compress;
    var vout := SecondOuts(script4, script16);
    VarIntsOfSecond();
    CompressExamples();
    OneOutIs(vout[4], [Byte(0x86), Byte(0xef), Byte(0x97), Byte(0xd5), Byte(0x79)]);
    OneOutIs(vout[16], [Byte(0xbb), Byte(0xd1), Byte(0x23)]);
    SkipSpent(vout, 0, 4);
    SkipSpent(vout, 5, 16);
    assert OutTokens(vout, 17) == [] && OutTokens(vout, 16) == OneOut(vout[16]) + [];
    assert OutTokens(vout, 4) == OneOut(vout[4]) + OutTokens(vout, 5);
  }

  lemma SecondCoinsExample(script4: Script, script16: Script)
    ensures var c := Coins(true, SecondOuts(script4, script16), 120_891, 1);
      && HasCoins(c)
      && Serialized(c) == [Byte(0x01), Byte(0x09), Mask(0x04), Mask(0x40)]
                        + [Byte(0x86), Byte(0xef), Byte(0x97), Byte(0xd5), Byte(0x79), Text(script4)]
                        + [Byte(0xbb), Byte(0xd1), Byte(0x23), Text(script16)]
                        + [Byte(0x86), Byte(0xaf), Byte(0x3b)]
  {
    hide VarInt, OutTokens, MaskBytes, MaskSize, MaskCode;
    var vout := SecondOuts(script4, script16);
    VarIntsOfSecond();
    SecondTokens(script4, script16);
    SecondMask(vout);
  }

  // ---- undo records (src/core.h) ----

  lemma VarIntsOfUndo()
    ensures VarInt(241_783, 0) == [Byte(0x8d), Byte(0xdf), Byte(0x77)]
    ensures VarInt(0, 0) == [Byte(0x00)] && VarInt(1, 0) == [Byte(0x01)]
  {
    VarIntStep(241_783, 0);
    VarIntStep(1_887, 128);
  }

  /** Spending output 16 of a coinbase at height 120891: as the last one left, and with others left. */
  lemma UndoExamples(script: Script)
    ensures UndoSerialized(TxInUndo(TxOut(110_397, script), true, 120_891, 1)) ==
      [Byte(0x8d), Byte(0xdf), Byte(0x77), Byte(0x01)] + [Byte(0xbb), Byte(0xd1), Byte(0x23), Text(script)]
    ensures UndoSerialized(TxInUndo(TxOut(110_397, script), false, 0, 0)) ==
      [Byte(0x00)] + [Byte(0xbb), Byte(0xd1), Byte(0x23), Text(script)]
  {
    hide VarInt, OneOut, Compress;
    VarIntsOfUndo();
    VarIntsOfSecond();
    CompressExamples();
    OneOutIs(TxOut(110_397, script), [Byte(0xbb), Byte(0xd1), Byte(0x23)]);
  }

  // ---- serialized sizes (src/serialize.h, src/core.h) ----

  /** A coinbase with a script of two bytes that pays to one output with a script of one byte; the limits at which the
      length of a list takes more bytes. */
  lemma SizeExamples(tx: Tx)
    requires |tx.vin| == |tx.vout| == 1 && |tx.vin[0].scriptSig| == 2 && |tx.vout[0].scriptPubKey| == 1
    ensures TxSize(tx) == 4 + 1 + (32 + 4 + 1 + 2 + 4) + 1 + (8 + 1 + 1) + 4
    ensures CompactSizeLength(252) == 1 && CompactSizeLength(253) == CompactSizeLength(65_535) == 3
    ensures CompactSizeLength(65_536) == CompactSizeLength(0xFFFF_FFFF) == 5 && CompactSizeLength(0x1_0000_0000) == 9
  {
    assert InsSize(tx.vin, 0) == 0 && OutsSize(tx.vout, 0) == 0;
  }

  // ---- compact targets (src/test/bignum_tests.cpp) ----

  lemma SetCompactExamples()
    ensures FromCompact(0x0112_3456) == 0x12 && FromCompact(0x0212_3456) == 0x1234
    ensures FromCompact(0x0312_3456) == 0x12_3456 && FromCompact(0x0412_3456) == 0x1234_5600
    ensures FromCompact(0x0500_9234) == 0x9234_0000 && FromCompact(0x0492_3456) == -0x1234_5600
    ensures FromCompact(0x01fe_dcba) == -0x7e && FromCompact(0x0012_3456) == 0 && FromCompact(0x0180_3456) == 0
  {
    SmallPowers();
  }

  lemma GetCompactExamples()
    ensures ToCompact(0) == 0 && ToCompact(0x12) == 0x0112_0000 && ToCompact(0x80) == 0x0200_8000
    ensures ToCompact(0x1234) == 0x0212_3400 && ToCompact(0x12_3456) == 0x0312_3456
    ensures ToCompact(0x1234_5600) == 0x0412_3456 && ToCompact(0x9234_0000) == 0x0500_9234
  {
    SmallPowers();
    SmallBytes(0);
    SmallBytes(0x12);
    SmallBytes(0x80);
    SmallBytes(0x1234);
    SmallBytes(0x12_3456);
    assert NumBytes(0x1234_5600) == 1 + NumBytes(0x12_3456);
    SmallBytes(0x92_3400);
    assert NumBytes(0x9234_0000) == 1 + NumBytes(0x92_3400);
    hide NumBytes, Pow256;
  }

  // ---- signature operations (src/test/sigopcount_tests.cpp) ----

  lemma CountStep(s: Script, pc: nat, last: nat, fAccurate: bool)
    requires pc < |s| && s[pc] > OP_PUSHDATA4
    ensures CountFrom(s, pc, last, fAccurate) ==
      OpCount(s[pc], last, fAccurate) + CountFrom(s, pc + 1, s[pc], fAccurate)
  {
  }

  lemma CountPush(s: Script, pc: nat, last: nat, fAccurate: bool)
    requires pc < |s| && s[pc] < OP_PUSHDATA1 && pc + 1 + s[pc] <= |s|
    ensures CountFrom(s, pc, last, fAccurate) == CountFrom(s, pc + 1 + s[pc], s[pc], fAccurate)
  {
  }

  /** One of two keys, then a check under a condition: 3 counted exactly, 21 otherwise. */
  lemma SigOpExample(key1: Script, key2: Script, fAccurate: bool)
    requires |key1| == |key2| == 20
    ensures SigOpCount([0x51, 20] + key1 + [20] + key2 + [0x52, 0xae, 0x63, 0xac, 0x68], fAccurate) ==
      if fAccurate then 3 else 21
  {
    var s := [0x51, 20] + key1 + [20] + key2 + [0x52, 0xae, 0x63, 0xac, 0x68];
    hide CountFrom, GetOp;
    CountStep(s, 0, OP_INVALIDOPCODE, fAccurate);
    CountPush(s, 1, 0x51, fAccurate);
    CountPush(s, 22, 20, fAccurate);
    CountStep(s, 43, 20, fAccurate);
    CountStep(s, 44, 0x52, fAccurate);
    CountStep(s, 45, 0xae, fAccurate);
    CountStep(s, 46, 0x63, fAccurate);
    CountStep(s, 47, 0xac, fAccurate);
    CountEnd(s, 0x68, fAccurate);
  }

  /** The same brought along for a pay-to-script-hash output. */
  lemma RedeemExample(key1: Script, key2: Script, scriptPubKey: Script)
    requires |key1| == |key2| == 20 && IsPayToScriptHash(scriptPubKey)
    ensures RedeemSigOps(scriptPubKey,
      [0, 48] + ([0x51, 20] + key1 + [20] + key2 + [0x52, 0xae, 0x63, 0xac, 0x68])) == 3
  {
    var s := [0x51, 20] + key1 + [20] + key2 + [0x52, 0xae, 0x63, 0xac, 0x68];
    var sig := [0, 48] + s;
    SigOpExample(key1, key2, true);
    hide SigOpCount;
    assert sig[1..1] == [] && sig[2..50] == s;
    var op0, op1 := GetOp(sig, 0), GetOp(sig, 1);
    assert op0 == Some(Op(0, [], 1)) && op1 == Some(Op(48, s, 50));
    assert LastPush(sig, 50, s) == Some(s);
    assert LastPush(sig, 1, []) == LastPush(sig, 50, s);
  }

  /** Both the input's and the output's script count. */
  lemma LegacyOfOne(tx: Tx)
    requires |tx.vin| == |tx.vout| == 1
    ensures LegacySigOps(tx) == SigOpCount(tx.vin[0].scriptSig, false) + SigOpCount(tx.vout[0].scriptPubKey, false)
  {
    hide SigOpCount;
    assert InSigOps(tx.vin, 0) == 0 && OutSigOps(tx.vout, 0) == 0;
  }

  /** One input's redeem script counts, against the output it spends; a coinbase has none. */
  lemma RedeemOfOne(m: CoinMap, tx: Tx)
    requires |tx.vin| == 1
    ensures tx.IsCoinBase() ==> P2SHSigOps(m, tx) == 0
    ensures var o := tx.vin[0].prevout;
      !tx.IsCoinBase() && Utxo.Avail(m, o) ==>
        P2SHSigOps(m, tx) == RedeemSigOps(m[o.hash].vout[o.n].scriptPubKey, tx.vin[0].scriptSig)
  {
    hide RedeemSigOps;
    assert RedeemSigOpsOf(m, tx.vin, 0) == 0;
  }

  /** The second transaction of a block is counted against the database after the first. */
  lemma SigOpsOfTwo(m: CoinMap, a: Tx, b: Tx, h: nat)
    ensures SigOpsOf(m, [a, b], 2, h) ==
      LegacySigOps(a) + P2SHSigOps(m, a) + LegacySigOps(b) + P2SHSigOps(ApplyTx(m, a, h), b)
  {
    hide LegacySigOps, P2SHSigOps, ApplyTx;
    assert ApplyTxs(m, [a, b], 1, h) == ApplyTx(ApplyTxs(m, [a, b], 0, h), a, h);
    assert SigOpsOf(m, [a, b], 1, h) == SigOpsOf(m, [a, b], 0, h) + TxSigOps(m, a);
  }

  lemma CountEnd(s: Script, last: nat, fAccurate: bool)
    ensures CountFrom(s, |s|, last, fAccurate) == 0
  {
  }

  // ---- base58 (src/test/data/base58_encode_decode.json) ----

  lemma DigitsStep(n: nat, base: nat)
    requires n > 0 && base >= 2
    ensures Digits(n, base) == Digits(n / base, base) + [n % base]
  {
  }

  lemma ValuesOf(a: nat, b: nat, c: nat)
    ensures Value([a], 256) == a && Value([a, b, c], 256) == (a * 256 + b) * 256 + c
  {
    ValueNext([], a, 256);
    ValueNext([a], b, 256);
    ValueNext([a, b], c, 256);
    assert [] + [a] == [a] && [a] + [b] == [a, b] && [a, b] + [c] == [a, b, c];
  }

  lemma EncodedIs(vch: seq<nat>, ds: seq<nat>)
    requires vch != [] && vch[0] != 0 && Digits(Value(vch, 256), 58) == ds
    ensures AllBelow(ds, 58) && Encoded(vch) == Base58.Text(ds)
  {
    assert Zeros(vch) == 0;
    assert ZeroList(0) + ds == ds;
  }

  lemma TextOfFour(a: nat, b: nat, c: nat, d: nat)
    requires a < 58 && b < 58 && c < 58 && d < 58
    ensures AllBelow([a, b, c, d], 58) && Base58.Text([a, b, c, d]) == [Char(a), Char(b), Char(c), Char(d)]
    ensures AllBelow([a, b], 58) && Base58.Text([a, b]) == [Char(a), Char(b)]
  {
  }

  lemma FourDigits(n: nat)
    requires n == 6_447_714 || n == 6_513_507
    ensures Digits(n, 58) == if n == 6_447_714 then [33, 2, 39, 28] else [33, 22, 13, 49]
  {
    DigitsStep(n, 58);
    DigitsStep(n / 58, 58);
    DigitsStep(n / 58 / 58, 58);
    DigitsStep(n / 58 / 58 / 58, 58);
    hide Digits;
    NoDigits(58);
  }

  lemma Base58Examples()
    ensures Encoded([0x61]) == "2g" && Encoded([0x62, 0x62, 0x62]) == "a3gV" && Encoded([0x63, 0x63, 0x63]) == "aPEr"
  {
    hide Digits, Value, Encoded, Base58.Text;
    ValuesOf(0x61, 0, 0);
    ValuesOf(0x62, 0x62, 0x62);
    ValuesOf(0x63, 0x63, 0x63);
    DigitsStep(0x61, 58);
    DigitsStep(1, 58);
    NoDigits(58);
    FourDigits(6_447_714);
    FourDigits(6_513_507);
    EncodedIs([0x61], [1, 39]);
    EncodedIs([0x62, 0x62, 0x62], [33, 2, 39, 28]);
    EncodedIs([0x63, 0x63, 0x63], [33, 22, 13, 49]);
    TextOfFour(33, 2, 39, 28);
    TextOfFour(33, 22, 13, 49);
    TextOfFour(1, 39, 0, 0);
  }

  /** Ten zero bytes are ten ones. */
  lemma Base58Zeros()
    ensures Encoded([0, 0, 0, 0, 0, 0, 0, 0, 0, 0]) == "1111111111" && Encoded([]) == ""
  {
    var z: seq<nat> := [0, 0, 0, 0, 0, 0, 0, 0, 0, 0];
    ZerosAre(z, 10);
    assert z == ZeroList(10) + [];
    LeadingZeros(10, [], 256);
    NoDigits(58);
  }
}
