/** A valid branch on which a bet stays spendable: coins and pool together outgrow what was ever issued. */
module Solvency {
  import opened Core
  import opened Coins
  import opened Utxo
  import opened Blocks
  import opened SigOps
  import opened BlockConnect
  import opened ChainState
  import opened Money

  /** The first subsidies, which fall from height 101 on. */
  const FIRST_SUBSIDY: int := 100000 * COIN

  /** A script that anyone can satisfy with an empty one. */
  const ANYONE: Script := [OP_1]

  /** The pool the branch starts with. */
  const POOL: int := COIN

  function CoinbaseAt(h: nat): Tx {
    Tx(h, 1, [TxIn(OutPoint(0, NULL_INDEX), [0, 0])], [TxOut(GetBlockValue(h, 0), ANYONE)])
  }

  /** A branch of blocks that hold nothing but a coinbase claiming the subsidy. */
  function Plain(p: Params, h: nat): BlockIndex {
    BlockIndex(if h == 0 then None else Some(Plain(p, h - 1)), h,
               Block(p.hashGenesisBlock + h, [CoinbaseAt(h)], LottoHeader(POOL, 0, 0, 1)))
  }

  function PlainCoins(h: nat): CoinMap {
    if h == 0 then map[] else PlainCoins(h - 1)[h := FromTx(CoinbaseAt(h), h)]
  }

  lemma {:induction false} PlainCoinsAt(h: nat, id: Uint256)
    ensures id in PlainCoins(h) <==> 1 <= id <= h
    ensures 1 <= id <= h ==> PlainCoins(h)[id] == FromTx(CoinbaseAt(id), id)
  {
    if h > 0 { PlainCoinsAt(h - 1, id); }
  }

  /** What a coinbase adds to size and signature operations of its block. */
  lemma CoinbaseLimits(h: nat)
    ensures TxSize(CoinbaseAt(h)) == 63 && LegacySigOps(CoinbaseAt(h)) == 0
  {
    CoinbaseSize(CoinbaseAt(h));
    CoinbaseSigOps(CoinbaseAt(h));
  }

  lemma CoinbaseSize(tx: Tx)
    requires |tx.vin| == |tx.vout| == 1 && tx.vin[0].scriptSig == [0, 0] && |tx.vout[0].scriptPubKey| == 1
    ensures TxSize(tx) == 63
  {
    CoinbaseIn(tx.vin);
    assert OutsSize(tx.vout, 1) == OutsSize(tx.vout, 0) + 10;
  }

  lemma CoinbaseSigOps(tx: Tx)
    requires |tx.vin| == |tx.vout| == 1 && tx.vin[0].scriptSig == [0, 0] && tx.vout[0].scriptPubKey == ANYONE
    ensures LegacySigOps(tx) == 0
  {
    hide SigOpCount;
    CoinbaseIn(tx.vin);
    AnyoneCountsNothing();
    assert OutSigOps(tx.vout, 1) == OutSigOps(tx.vout, 0);
  }

  /** The one input of a coinbase. */
  lemma CoinbaseIn(vin: seq<TxIn>)
    requires |vin| == 1 && vin[0].scriptSig == [0, 0]
    ensures InsSize(vin, 1) == 43 && InSigOps(vin, 1) == 0
  {
    hide SigOpCount;
    TwoZeros();
    assert InsSize(vin, 1) == InsSize(vin, 0) + 43 && InSigOps(vin, 1) == InSigOps(vin, 0);
  }

  lemma TwoZeros()
    ensures SigOpCount([0, 0], false) == 0
  {
    hide CountFrom;
    ZerosCountNothing([0, 0], 0, OP_INVALIDOPCODE);
  }

  /** A script of zero bytes pushes empty items. */
  lemma {:induction false} ZerosCountNothing(s: Script, pc: nat, last: nat)
    requires pc <= |s| && forall i :: 0 <= i < |s| ==> s[i] == 0
    ensures CountFrom(s, pc, last, false) == 0
    decreases |s| - pc
  {
    if pc < |s| {
      ZeroOp(s, pc);
      hide GetOp;
      ZerosCountNothing(s, pc + 1, 0);
    }
  }

  lemma ZeroOp(s: Script, pc: nat)
    requires pc < |s| && s[pc] == 0
    ensures GetOp(s, pc).Some? && GetOp(s, pc).value.opcode == 0 && GetOp(s, pc).value.next == pc + 1
  {
  }

  lemma AnyoneCountsNothing()
    ensures SigOpCount(ANYONE, false) == 0
  {
    assert GetOp(ANYONE, 0) == Some(Op(OP_1, [], 1));
    assert CountFrom(ANYONE, 1, OP_1, false) == 0;
  }

  lemma CoinbaseFormed(h: nat)
    ensures WellFormedTx(CoinbaseAt(h)) && CoinbaseAt(h).IsCoinBase() && WellFormedBlock([CoinbaseAt(h)])
  {
    var tx := CoinbaseAt(h);
    CoinbaseLimits(h);
    hide TxSize, LegacySigOps;
    assert tx.vout[..0] == [] && SumOuts(tx.vout) == tx.vout[0].nValue;
  }

  lemma PlainLimits(p: Params, h: nat)
    ensures BlockLimits(Plain(p, h).block)
  {
    hide TxSize, LegacySigOps;
    CoinbaseLimits(h);
    var vtx := [CoinbaseAt(h)];
    assert SizeOf(vtx, 1) == SizeOf(vtx, 0) + 63 && LegacySigOpsOf(vtx, 1) == LegacySigOpsOf(vtx, 0);
  }

  lemma {:induction false} PlainInTree(p: Params, h: nat)
    requires p.hashGenesisBlock != 0
    ensures InTree(p, Plain(p, h))
  {
    if h > 0 { PlainInTree(p, h - 1); }
  }

  /** What a coinbase at the front of a block does. */
  lemma CoinbaseStep(p: Params, m: CoinMap, vtx: seq<Tx>, h: nat)
    requires vtx != [] && vtx[0] == CoinbaseAt(h)
    ensures ApplyTxs(m, vtx, 1, h) == m[h := FromTx(CoinbaseAt(h), h)]
    ensures FeesOf(m, vtx, 1, h) == 0 && BetsOfTxs(p, h - 1, vtx, 1) == 0 && BurnedTxs(vtx, 1) == 0
    ensures TxOkAt(p, m, vtx, 0, h) && SigOpsOf(m, vtx, 1, h) == 0
  {
    hide LegacySigOps;
    CoinbaseLimits(h);
    assert SigOpsOf(m, vtx, 0, h) == 0 && TxSigOps(m, vtx[0]) == 0;
    assert ApplyTxs(m, vtx, 0, h) == m;
    var vout := vtx[0].vout;
    assert Burned(vout, 1) == Burned(vout, 0);
  }

  lemma AllOk(p: Params, m: CoinMap, vtx: seq<Tx>, h: nat)
    requires vtx != [] && |vtx| <= 2 && TxOkAt(p, m, vtx, 0, h) && (|vtx| == 2 ==> TxOkAt(p, m, vtx, 1, h))
    ensures AllInputsOk(p, m, vtx, h)
  {
    hide TxOkAt;
    forall i | 0 <= i < |vtx| ensures TxOkAt(p, m, vtx, i, h) {
      assert i == 0 || i == 1;
    }
  }

  lemma PlainLotto(p: Params, h: nat)
    requires h > 0 && BetsOfTxs(p, h - 1, [CoinbaseAt(h)], 1) == 0
    ensures Plain(p, h).pprev == Some(Plain(p, h - 1)) && Plain(p, h).block.vtx == [CoinbaseAt(h)]
    ensures LottoResultOk(p, Plain(p, h - 1), Plain(p, h).block)
  {
    hide BetsOfTxs;
  }

  lemma PlainAccepts(p: Params, h: nat)
    requires p.hashGenesisBlock != 0 && h > 0
    ensures Accepts(p, PlainCoins(h - 1), Plain(p, h))
  {
    hide PlainCoins, AllInputsOk, FeesOf, SigOpsOf, BetsOfTxs, BurnedTxs, WellFormedBlock, WellFormedTx, TxOkAt,
      BlockLimits, ApplyTxs, GetBlockValue, TxSize, LegacySigOps, FromTx, LottoResultOk;
    var b, m := Plain(p, h), PlainCoins(h - 1);
    CoinbaseFormed(h);
    PlainLimits(p, h);
    CoinbaseStep(p, m, [CoinbaseAt(h)], h);
    PlainLotto(p, h);
    PlainCoinsAt(h - 1, h);
    AllOk(p, m, b.block.vtx, h);
    assert NoOverwrite(m, b.block.vtx);
  }

  lemma {:induction false} PlainValid(p: Params, h: nat)
    requires p.hashGenesisBlock != 0
    ensures ValidBranch(p, Plain(p, h)) && UtxoAfter(p, Plain(p, h)) == PlainCoins(h)
  {
    hide Accepts, WellFormedBlock, BlockLimits, ApplyTxs, SigOpsOf, FeesOf, BetsOfTxs, BurnedTxs, TxOkAt, WellFormedTx;
    CoinbaseFormed(h);
    PlainLimits(p, h);
    if h > 0 {
      PlainValid(p, h - 1);
      PlainAccepts(p, h);
      CoinbaseStep(p, PlainCoins(h - 1), [CoinbaseAt(h)], h);
    }
  }

  lemma {:induction false} PlainSums(p: Params, h: nat)
    requires p.hashGenesisBlock != 0 && InTree(p, Plain(p, h)) && ValidBranch(p, Plain(p, h))
    ensures var b := Plain(p, h);
      BetsOn(p, b) == 0 && BurnedOn(b) == 0 && UnclaimedOn(p, b) == 0 && b.block.lottoHeader.llPool == POOL
  {
    hide GetBlockValue, FeesOf, UtxoBefore, SigOpsOf, TxOkAt, ApplyTxs, CanConnect, BetsOfTxs, BurnedTxs;
    if h > 0 {
      PlainSums(p, h - 1);
      CoinbaseStep(p, UtxoBefore(p, Plain(p, h)), [CoinbaseAt(h)], h);
    }
  }

  // ---- the bet ----

  /** When the first coinbase may be spent. */
  function Mature(p: Params): nat {
    if p.coinbaseMaturity < 1 then 2 else p.coinbaseMaturity + 1
  }

  /** The first coinbase goes into a bet and change. */
  function BetTx(h: nat, bet: TxOut): Tx {
    Tx(h + 1, 1, [TxIn(OutPoint(1, 0), [])], [bet, TxOut(FIRST_SUBSIDY - bet.nValue, ANYONE)])
  }

  function BetBranch(p: Params, bet: TxOut): BlockIndex {
    var h := Mature(p);
    var vtx := [CoinbaseAt(h), BetTx(h, bet)];
    BlockIndex(Some(Plain(p, h - 1)), h,
               Block(p.hashGenesisBlock + h, vtx, LottoHeader(POOL + BetsOfTxs(p, h - 1, vtx, 2), 0, 0, 1)))
  }

  /** Longer scripts can never be satisfied. */
  const MAX_SCRIPT_SIZE: nat := 10_000

  /** A bet for which the program's own check does not ask for an unspendable script. */
  predicate SpendableBet(p: Params, bet: TxOut) {
    && p.scan(bet) == Bet(true) && 0 < bet.nValue <= FIRST_SUBSIDY && !IsUnspendable(bet.scriptPubKey)
    && |bet.scriptPubKey| <= MAX_SCRIPT_SIZE && SigOpCount(bet.scriptPubKey, false) <= MAX_BLOCK_SIGOPS
  }

  lemma BetLimits(p: Params, bet: TxOut, h: nat)
    requires SpendableBet(p, bet)
    ensures TxSize(BetTx(h, bet)) <= 10_200 && LegacySigOps(BetTx(h, bet)) <= MAX_BLOCK_SIGOPS
  {
    var tx := BetTx(h, bet);
    hide SigOpCount;
    assert InsSize(tx.vin, 1) == InsSize(tx.vin, 0) + 41;
    assert OutsSize(tx.vout, 1) == OutsSize(tx.vout, 0) + 8 + ScriptSize(bet.scriptPubKey);
    assert OutsSize(tx.vout, 2) == OutsSize(tx.vout, 1) + 10;
    AnyoneCountsNothing();
    EmptyCountsNothing();
    assert InSigOps(tx.vin, 1) == InSigOps(tx.vin, 0) && OutSigOps(tx.vout, 2) == OutSigOps(tx.vout, 1);
    assert OutSigOps(tx.vout, 1) == OutSigOps(tx.vout, 0) + SigOpCount(bet.scriptPubKey, false);
  }

  lemma EmptyCountsNothing()
    ensures SigOpCount([], false) == 0
  {
  }

  lemma BetBlockLimits(p: Params, bet: TxOut)
    requires SpendableBet(p, bet)
    ensures BlockLimits(BetBranch(p, bet).block)
  {
    var h := Mature(p);
    var vtx := [CoinbaseAt(h), BetTx(h, bet)];
    CoinbaseLimits(h);
    BetLimits(p, bet, h);
    hide TxSize, LegacySigOps, BetsOfTxs, SpendableBet;
    assert SizeOf(vtx, 1) == SizeOf(vtx, 0) + 63 && SizeOf(vtx, 2) == SizeOf(vtx, 1) + TxSize(vtx[1]);
    assert LegacySigOpsOf(vtx, 1) == LegacySigOpsOf(vtx, 0);
    assert LegacySigOpsOf(vtx, 2) == LegacySigOpsOf(vtx, 1) + LegacySigOps(vtx[1]);
  }

  lemma BetOuts(p: Params, bet: TxOut, h: nat)
    requires SpendableBet(p, bet)
    ensures var vout := BetTx(h, bet).vout;
      && SumOuts(vout) == FIRST_SUBSIDY && Burned(vout, 2) == 0
      && BetsOfOuts(p, h - 1, vout, 2) >= bet.nValue
  {
    var vout := BetTx(h, bet).vout;
    assert vout[..1] == [bet] && [bet][..0] == [];
    assert SumOuts([bet]) == bet.nValue;
    assert Burned(vout, 1) == Burned(vout, 0) == 0;
    assert StateAfter(p, h - 1, vout, 1) == VALID_LOTTO_STATE;
    assert BetsOfOuts(p, h - 1, vout, 1) == BetsOfOuts(p, h - 1, vout, 0) + bet.nValue;
  }

  lemma BetFormed(p: Params, bet: TxOut, h: nat)
    requires SpendableBet(p, bet)
    ensures WellFormedTx(BetTx(h, bet)) && WellFormedBlock([CoinbaseAt(h), BetTx(h, bet)])
  {
    BetOuts(p, bet, h);
    BetLimits(p, bet, h);
    CoinbaseFormed(h);
    hide SumOuts, TxSize, LegacySigOps;
  }

  /** The first coinbase is there to be spent. */
  lemma FirstCoinbase(m: CoinMap, vin: seq<TxIn>)
    requires 1 in m && m[1] == FromTx(CoinbaseAt(1), 1) && vin == [TxIn(OutPoint(1, 0), [])]
    ensures Avail(m, vin[0].prevout) && ValueIn(m, vin, 1) == ValueOf(m, vin[0].prevout) == FIRST_SUBSIDY
    ensures m[1].nHeight == 1 && RedeemSigOpsOf(m, vin, 1) == 0
  {
    var vout := CoinbaseAt(1).vout;
    assert NullUnspendable(vout, 1) == vout;
    assert ValueIn(m, vin, 0) == 0 && RedeemSigOpsOf(m, vin, 0) == 0;
    assert RedeemSigOps(ANYONE, []) == 0;
  }

  lemma BetStep(p: Params, m: CoinMap, bet: TxOut)
    requires SpendableBet(p, bet) && m == PlainCoins(Mature(p) - 1)
    ensures var h := Mature(p); var vtx := [CoinbaseAt(h), BetTx(h, bet)];
      && TxOkAt(p, m, vtx, 1, h) && FeesOf(m, vtx, 2, h) == 0 && BurnedTxs(vtx, 2) == 0
      && SigOpsOk(m, vtx, h)
      && BetsOfTxs(p, h - 1, vtx, 2) >= bet.nValue
  {
    var h := Mature(p);
    var vtx := [CoinbaseAt(h), BetTx(h, bet)];
    hide PlainCoins, ApplyTxs, SumOuts, Burned, BetsOfOuts, FromTx, ValueIn, ValueOf, Avail, GetBlockValue, LegacySigOps,
      RedeemSigOpsOf;
    BetLimits(p, bet, h);
    CoinbaseStep(p, m, vtx, h);
    PlainCoinsAt(h - 1, 1);
    var m1 := ApplyTxs(m, vtx, 1, h);
    FirstCoinbase(m1, vtx[1].vin);
    BetOuts(p, bet, h);
    assert InputOk(p, m1, vtx[1].vin, 0, h);
    assert SigOpsOf(m, vtx, 2, h) == SigOpsOf(m, vtx, 1, h) + TxSigOps(m1, vtx[1]);
    assert FeesOf(m, vtx, 2, h) == FeesOf(m, vtx, 1, h) + FeeOf(m1, vtx[1]);
    assert BetsOfTxs(p, h - 1, vtx, 2) == BetsOfTxs(p, h - 1, vtx, 1) + BetsOfTx(p, h - 1, vtx[1]);
  }

  lemma BetAccepts(p: Params, bet: TxOut)
    requires p.hashGenesisBlock != 0 && SpendableBet(p, bet)
    ensures Accepts(p, PlainCoins(Mature(p) - 1), BetBranch(p, bet))
  {
    hide PlainCoins, AllInputsOk, TxOkAt, SigOpsOk, FeesOf, SigOpsOf, BetsOfTxs, BurnedTxs, WellFormedBlock, BlockLimits,
      ApplyTxs, GetBlockValue, SpendableBet, LottoResultOk, NoOverwrite;
    var b, h, m := BetBranch(p, bet), Mature(p), PlainCoins(Mature(p) - 1);
    BetFormed(p, bet, h);
    BetBlockLimits(p, bet);
    CoinbaseStep(p, m, b.block.vtx, h);
    BetStep(p, m, bet);
    AllOk(p, m, b.block.vtx, h);
    BetRules(p, bet);
  }

  lemma BetRules(p: Params, bet: TxOut)
    ensures var b := BetBranch(p, bet);
      LottoResultOk(p, b.pprev.value, b.block) && NoOverwrite(PlainCoins(Mature(p) - 1), b.block.vtx)
  {
    hide BetsOfTxs, PlainCoins;
    PlainCoinsAt(Mature(p) - 1, Mature(p));
    PlainCoinsAt(Mature(p) - 1, Mature(p) + 1);
  }

  /** Whatever the maturity of coinbases and the lottery's interval: if some bet can be spent, there is a valid
      branch whose coins and pool together exceed its subsidies and its genesis pool. */
  lemma SpendableBetBreaks(p: Params, bet: TxOut)
    requires p.hashGenesisBlock != 0 && SpendableBet(p, bet)
    ensures var t := BetBranch(p, bet);
      InTree(p, t) && ValidBranch(p, t) && !Solvent(t, UtxoAfter(p, t))
  {
    var t, h := BetBranch(p, bet), Mature(p);
    hide Accepts, WellFormedBlock, BlockLimits, UnclaimedOn, AfterConnect, SpendableBet;
    BetBlockLimits(p, bet);
    PlainInTree(p, h - 1);
    PlainValid(p, h - 1);
    BetFormed(p, bet, h);
    BetAccepts(p, bet);
    hide UtxoAfter;
    assert ValidBranch(p, t);
    BetSums(p, bet);
    SameOfLive(true, UtxoAfter(p, t), UtxoAfter(p, t));
    SolventExactly(p, t, UtxoAfter(p, t), t.block.hash);
  }

  lemma BeforeBet(p: Params, bet: TxOut)
    ensures UtxoBefore(p, BetBranch(p, bet)) == UtxoAfter(p, Plain(p, Mature(p) - 1))
  {
  }

  lemma BetSums(p: Params, bet: TxOut)
    requires p.hashGenesisBlock != 0 && SpendableBet(p, bet)
    requires InTree(p, BetBranch(p, bet)) && ValidBranch(p, BetBranch(p, bet))
    ensures var t := BetBranch(p, bet); BetsOn(p, t) > 0 && BurnedOn(t) == 0 && UnclaimedOn(p, t) == 0
  {
    var t, h := BetBranch(p, bet), Mature(p);
    hide GetBlockValue, FeesOf, UtxoBefore, CanConnect, BetsOfTxs, BurnedTxs;
    PlainValid(p, h - 1);
    PlainSums(p, h - 1);
    BeforeBet(p, bet);
    BetStep(p, PlainCoins(h - 1), bet);
  }
}
