/** A block that CreateNewBlock may build and ConnectBlock refuses: the payouts, added to the coinbase after the
    transactions were chosen, take more than the room kept for it. */
module Overfull {
  import opened Core
  import opened Coins
  import opened Utxo
  import opened Blocks
  import opened SigOps
  import opened BlockConnect
  import opened ChainState
  import opened Solvency
  import opened Miner

  const N_OUTS: nat := 31178
  const N_WINNERS: nat := 64

  /** Pay to a script hash. */
  function PayScript(): (s: Script)
    ensures |s| == 23 && s[0] == OP_HASH160 && s[1] == 0x14 && s[22] == OP_EQUAL
  {
    [OP_HASH160, 0x14] + seq(20, _ => 7) + [OP_EQUAL]
  }

  function OneOut(): TxOut {
    TxOut(1, PayScript())
  }

  function Outs(n: nat): (vout: seq<TxOut>)
    ensures |vout| == n && forall i :: 0 <= i < n ==> vout[i] == OneOut()
  {
    seq(n, _ => OneOut())
  }

  /** Coinbases mature after 100 blocks, draws are 60 blocks apart, and every draw has 64 winners. */
  ghost function Chain(): Params {
    AnyParams(1, 100, 60, _ => NoPool, _ => Some(5), (_, _, _, _) => Outs(N_WINNERS))
  }

  /** As many bytes as may be asked for, everything welcome. */
  ghost function Settings(): Policy {
    Policy(_ => 1.0, _ => 1.0, _ => true, 0.0, _ => true, 999_000, 50_000, 0)
  }

  /** The first coinbase spent into very many outputs. */
  function BigTx(): Tx {
    Tx(1000, 1, [TxIn(OutPoint(1, 0), [])], Outs(N_OUTS))
  }

  function BuiltCoinbase(nFees: int): Tx {
    Tx(2000, 1, [TxIn(OutPoint(0, NULL_INDEX), [0, 0])],
       [TxOut(GetBlockValue(122, nFees), PayScript())] + Outs(N_WINNERS))
  }

  function BuiltBlock(nFees: int): Block {
    Block(0, [BuiltCoinbase(nFees), BigTx()], LottoHeader(POOL - N_WINNERS, 1, 5, 1))
  }

  // ---- outputs that are all alike ----

  lemma ScriptHashCountsNothing(s: Script)
    requires IsPayToScriptHash(s)
    ensures SigOpCount(s, false) == 0 && !IsUnspendable(s)
  {
    var o0, o1, o2 := GetOp(s, 0), GetOp(s, 1), GetOp(s, 22);
    assert o0.value.next == 1 && o1.Some? && o1.value.next == 22 && o2.value.next == 23;
    hide GetOp;
    assert CountFrom(s, 23, s[22], false) == 0;
    assert CountFrom(s, 22, s[1], false) == 0;
    assert CountFrom(s, 1, s[0], false) == 0;
  }

  lemma {:induction false} OutsAlike(vout: seq<TxOut>, k: nat)
    requires k <= |vout| && forall i :: 0 <= i < k ==> vout[i].scriptPubKey == PayScript()
    ensures OutsSize(vout, k) == 32 * k && OutSigOps(vout, k) == 0
  {
    hide SigOpCount;
    ScriptHashCountsNothing(PayScript());
    if k > 0 { OutsAlike(vout, k - 1); }
  }

  lemma {:induction false} SumAlike(vout: seq<TxOut>)
    requires forall i :: 0 <= i < |vout| ==> vout[i].nValue == 1
    ensures SumOuts(vout) == |vout|
    decreases |vout|
  {
    if vout != [] { SumAlike(vout[..|vout| - 1]); }
  }

  // ---- the big transaction ----

  lemma BigIn(vin: seq<TxIn>)
    requires |vin| == 1 && vin[0].scriptSig == []
    ensures InsSize(vin, 1) == 41 && InSigOps(vin, 1) == 0
  {
    EmptyCountsNothing();
    hide SigOpCount;
    assert InsSize(vin, 0) == 0 && InSigOps(vin, 0) == 0;
  }

  lemma BigCounts()
    ensures TxSize(BigTx()) == 997_749 && LegacySigOps(BigTx()) == 0
  {
    hide SigOpCount, OutsSize, OutSigOps, InsSize, InSigOps;
    OutsAlike(BigTx().vout, N_OUTS);
    BigIn(BigTx().vin);
  }

  lemma BigLimits()
    ensures TxSize(BigTx()) == 997_749 && LegacySigOps(BigTx()) == 0 && SumOuts(BigTx().vout) == N_OUTS
    ensures WellFormedTx(BigTx())
  {
    hide SumOuts, TxSize, LegacySigOps;
    BigCounts();
    SumAlike(BigTx().vout);
  }

  function BigFee(): int {
    FIRST_SUBSIDY - N_OUTS
  }

  lemma BigStep(m: CoinMap, h: nat)
    requires 121 <= h && m == PlainCoins(h - 1)
    ensures var vtx := [BigTx()];
      TxOkAt(Chain(), m, vtx, 0, h) && FeesOf(m, vtx, 1, h) == BigFee() && SigOpsOf(m, vtx, 1, h) == 0
  {
    var vtx := [BigTx()];
    hide PlainCoins, SumOuts, FromTx, ValueIn, ValueOf, Avail, GetBlockValue, LegacySigOps, RedeemSigOpsOf, WellFormedTx,
      TxSize;
    PlainCoinsAt(h - 1, 1);
    FirstCoinbase(m, vtx[0].vin);
    BigLimits();
    assert ApplyTxs(m, vtx, 0, h) == m;
    assert InputOk(Chain(), m, vtx[0].vin, 0, h);
    assert SigOpsOf(m, vtx, 1, h) == SigOpsOf(m, vtx, 0, h) + TxSigOps(m, vtx[0]);
    assert FeesOf(m, vtx, 1, h) == FeesOf(m, vtx, 0, h) + FeeOf(m, vtx[0]);
  }

  // ---- the built block ----

  lemma PayingCoinbaseLimits(nFees: int)
    ensures TxSize(BuiltCoinbase(nFees)) == 2133 && LegacySigOps(BuiltCoinbase(nFees)) == 0
  {
    hide SigOpCount, OutsSize, OutSigOps, InsSize, InSigOps, GetBlockValue;
    var tx := BuiltCoinbase(nFees);
    OutsAlike(tx.vout, N_WINNERS + 1);
    CoinbaseIn(tx.vin);
  }

  lemma PayingSum(nFees: int)
    ensures SumOuts(BuiltCoinbase(nFees).vout) == GetBlockValue(122, nFees) + N_WINNERS
  {
    hide GetBlockValue, Outs;
    var first := TxOut(GetBlockValue(122, nFees), PayScript());
    SumAlike(Outs(N_WINNERS));
    SumOutsAppend([first], Outs(N_WINNERS));
    assert [first][..0] == [] && SumOuts([first]) == first.nValue;
  }

  lemma PayingCoinbaseFormed(nFees: int)
    requires 0 <= GetBlockValue(122, nFees) <= MAX_MONEY - N_WINNERS
    ensures WellFormedTx(BuiltCoinbase(nFees)) && BuiltCoinbase(nFees).IsCoinBase()
  {
    hide TxSize, GetBlockValue, SumOuts, LegacySigOps;
    PayingCoinbaseLimits(nFees);
    PayingSum(nFees);
  }

  lemma {:induction false} NoBets(h: int, vout: seq<TxOut>, k: nat)
    requires k <= |vout|
    ensures BetsOfOuts(Chain(), h, vout, k) == 0
  {
    if k > 0 {
      NoBets(h, vout, k - 1);
      assert StateAfter(Chain(), h, vout, k) == NORMAL_STATE;
    }
  }

  lemma NoBetsInBlock(h: nat, vtx: seq<Tx>)
    requires |vtx| == 2
    ensures BetsOfTxs(Chain(), h, vtx, 2) == 0
  {
    hide BetsOfOuts;
    NoBets(h, vtx[0].vout, |vtx[0].vout|);
    NoBets(h, vtx[1].vout, |vtx[1].vout|);
    assert BetsOfTxs(Chain(), h, vtx, 1) == BetsOfTxs(Chain(), h, vtx, 0) + BetsOfTx(Chain(), h, vtx[0]);
  }

  lemma {:induction false} AllValid(h: int, vout: seq<TxOut>, k: nat)
    requires k <= |vout|
    ensures StateAfter(Chain(), h, vout, k) == NORMAL_STATE
  {
  }

  /** The lottery header and the payouts pass the pool and payout rules. */
  lemma LottoOk(h: nat)
    requires h == 122
    ensures var prev := Plain(Chain(), h - 1);
      && !KeyMissing(Chain(), prev) && prev.nHeight == 121
      && LottoResultOk(Chain(), prev, BuiltBlock(BigFee()))
      && Built(Chain(), prev, BuiltBlock(BigFee()), [BigTx()], BigFee(), PayScript())
  {
    hide SumOuts, BetsOfTxs, GetBlockValue;
    var prev, block := Plain(Chain(), h - 1), BuiltBlock(BigFee());
    assert prev.nHeight == 121 && prev.block.lottoHeader == LottoHeader(POOL, 0, 0, 1);
    NoBetsInBlock(h - 1, block.vtx);
    SumAlike(Outs(N_WINNERS));
    assert PayoutOuts(block) == Outs(N_WINNERS);
    assert GetLotteryKey(Chain(), 121) == Some((1, 5));
  }

  lemma PoolConnected(m: CoinMap, pool: Pool)
    requires 1 in m && pool == map[1000 := BigTx()]
    ensures PoolOk(pool, m) && Parents(m, BigTx()) == {} && Eligible(Settings(), pool, BigTx())
  {
    BigLimits();
    hide WellFormedTx, Outs;
    assert Rooted(pool, m, BigTx());
    assert Missing(m, BigTx().vin, 1) == Missing(m, BigTx().vin, 0);
  }

  lemma BigTotals(h: nat, m: CoinMap)
    requires h == 122 && m == PlainCoins(h - 1)
    ensures Totals(Chain(), Settings(), m, h, [BigTx()], MaxSize(Settings()), 998_749, 100, BigFee(), 0)
  {
    hide PlainCoins, TxSize, LegacySigOps, BetsOfTx, FeesOf, SigOpsOf;
    BigLimits();
    BigStep(m, h);
    assert SizeOf([BigTx()], 1) == SizeOf([BigTx()], 0) + TxSize(BigTx());
    assert BetsOfTxs(Chain(), h - 1, [BigTx()], 1) ==
      BetsOfTxs(Chain(), h - 1, [BigTx()], 0) + BetsOfTx(Chain(), h - 1, BigTx());
    NoBetsOfBig(h - 1);
  }

  lemma NoBetsOfBig(h: int)
    ensures BetsOfTx(Chain(), h, BigTx()) == 0 && BetsValid(Chain(), h, BigTx())
  {
    NoBets(h, BigTx().vout, |BigTx().vout|);
    forall i | 0 <= i < |BigTx().vout| ensures OutValid(Chain(), h, BigTx().vout, i) {
      AllValid(h, BigTx().vout, i + 1);
    }
  }

  /** What the selection comes to: the big transaction is chosen, within all limits. */
  lemma BigChosen(h: nat, m: CoinMap, pool: Pool)
    requires h == 122 && m == PlainCoins(h - 1) && pool == map[1000 := BigTx()]
    ensures PoolOk(pool, m) && Chosen(Chain(), Settings(), pool, m, [BigTx()], h)
  {
    hide PlainCoins, WellFormedTx, PoolOk, TxOkAt, Eligible, Parents, BetsValid, FeesOf, SigOpsOf;
    BigStep(m, h);
    PlainCoinsAt(h - 1, 1);
    PoolConnected(m, pool);
    NoBetsOfBig(h - 1);
    assert Placed(Chain(), Settings(), pool, m, [BigTx()], 0, h);
  }

  /** Nothing else is in the pool, and it is picked and admitted. */
  lemma BigPicked(h: nat, m: CoinMap, pool: Pool)
    requires h == 122 && m == PlainCoins(h - 1) && pool == map[1000 := BigTx()]
    ensures Greedy(Chain(), Settings(), pool, m, h, [BigTx()])
    ensures AfterPicks(Chain(), Settings(), m, h, [BigTx()]).vtx == [BigTx()]
    ensures forall tx :: !CanPick(Settings(), pool, m, Members([BigTx()]), [BigTx()], tx)
  {
    hide PlainCoins, WellFormedTx, TxSize, LegacySigOps, InputsOk, BetsValid, P2SHSigOps, Outs;
    var start := AfterPicks(Chain(), Settings(), m, h, []);
    PlainCoinsAt(h - 1, 1);
    BigStep(m, h);
    BigLimits();
    NoBetsOfBig(h - 1);
    BigFits(m, h);
    PoolConnected(m, pool);
    assert [BigTx()][..0] == [] && ApplyTxs(m, [], 0, h) == m == ApplyTxs(m, [BigTx()], 0, h);
    assert CanPick(Settings(), pool, m, Members([]), [], BigTx());
    assert RightPick(Chain(), Settings(), pool, m, h, [BigTx()], 0);
  }

  lemma BigFits(m: CoinMap, h: nat)
    requires SigOpsOf(m, [BigTx()], 1, h) == 0 && ApplyTxs(m, [BigTx()], 0, h) == m
    ensures TxSigOps(m, BigTx()) == 0
  {
    hide TxSigOps, ApplyTxs;
    assert SigOpsOf(m, [BigTx()], 1, h) == SigOpsOf(m, [BigTx()], 0, h) + TxSigOps(ApplyTxs(m, [BigTx()], 0, h), BigTx());
  }

  /** On this valid branch the block is what CreateNewBlock may build: its pool is connected, the selection within all
      limits, its coinbase well formed, its payouts right, nothing overwritten, its signature operations none. It is
      refused all the same, for its size. */
  lemma PayoutsOverflow(h: nat)
    requires h == 122
    ensures var prev := Plain(Chain(), h - 1);
      var m, pool, block := UtxoAfter(Chain(), prev), map[1000 := BigTx()], BuiltBlock(BigFee());
      && InTree(Chain(), prev) && ValidBranch(Chain(), prev)
      && PoolOk(pool, m) && Chosen(Chain(), Settings(), pool, m, [BigTx()], h)
      && Greedy(Chain(), Settings(), pool, m, h, [BigTx()])
      && AfterPicks(Chain(), Settings(), m, h, [BigTx()]).vtx == [BigTx()]
      && (forall tx :: !CanPick(Settings(), pool, m, Members([BigTx()]), [BigTx()], tx))
      && Totals(Chain(), Settings(), m, h, [BigTx()], MaxSize(Settings()), 998_749, 100, BigFee(), 0)
      && Built(Chain(), prev, block, [BigTx()], BigFee(), PayScript())
      && WellFormedTx(block.vtx[0]) && NoOverwrite(m, block.vtx) && SigOpsOk(m, block.vtx, h)
      && BlockSize(block) == 1_000_048
      && !Accepts(Chain(), m, BlockIndex(Some(prev), h, block))
  {
    hide PlainCoins, TxSize, LegacySigOps, PoolOk, Chosen, Greedy, AfterPicks, CanPick, Members, Totals, Built,
      WellFormedTx, GetBlockValue, ValidBranch, UtxoAfter, SigOpsOf, LottoResultOk;
    var prev, block := Plain(Chain(), h - 1), BuiltBlock(BigFee());
    PlainInTree(Chain(), h - 1);
    PlainValid(Chain(), h - 1);
    var m := UtxoAfter(Chain(), prev);
    BigChosen(h, m, map[1000 := BigTx()]);
    BigTotals(h, m);
    BigPicked(h, m, map[1000 := BigTx()]);
    LottoOk(h);
    CoinbaseValue();
    PayingCoinbaseFormed(BigFee());
    PlainCoinsAt(h - 1, 1000);
    PlainCoinsAt(h - 1, 2000);
    assert NoOverwrite(m, block.vtx);
    BigLimits();
    PayingCoinbaseLimits(BigFee());
    SizeBehindCoinbase(block.vtx[0], [BigTx()], 1);
    SigOpsBehindCoinbase(Chain(), m, block.vtx[0], [BigTx()], 1, h);
    BigStep(m, h);
    assert block.vtx == [block.vtx[0]] + [BigTx()];
  }

  lemma CoinbaseValue()
    ensures 0 <= GetBlockValue(122, BigFee()) <= MAX_MONEY - N_WINNERS
  {
  }
}
