/** Blocks, the block tree, the lottery rules and the consensus parameters (src/core.h, src/main.h). */
module Blocks {
  import opened Core

  datatype Option<+T> = None | Some(value: T)

  /** The lottery's part of a block header; of the Bitcoin hashes it lists, only the number. */
  datatype LottoHeader = LottoHeader(llPool: int, nLottoID: int, uLottoKey: Uint256, nBitcoinHashes: nat)

  datatype Block = Block(hash: Uint256, vtx: seq<Tx>, lottoHeader: LottoHeader)

  /** An entry of the block tree, with the block stored on disk for it. */
  datatype BlockIndex = BlockIndex(pprev: Option<BlockIndex>, nHeight: nat, block: Block) {
    /** Entries reachable from here: heights count the ancestors, hashes are not 0. */
    predicate Valid() {
      && block.hash != 0
      && match pprev
         case None => nHeight == 0
         case Some(p) => nHeight == p.nHeight + 1 && p.Valid()
    }
  }

  /** Hash of the parent, 0 where there is none. */
  function PrevHash(pindex: BlockIndex): Uint256 {
    match pindex.pprev
    case None => 0
    case Some(p) => p.block.hash
  }

  /** What reading an output's script as a bet comes to: it pays elsewhere; it breaks off before OP_LOTTO or right
      after it; it has no OP_LOTTO; or it carries a bet, whose numbers and value are valid or not. */
  datatype Scan = NoPool | Malformed | NoBet | Bet(valid: bool)

  /** The chain's constants, and as functions the parts of the program outside this model: how an output's
      script reads, the lottery key known for a height, and the winners' outputs of a draw from a pool. */
  datatype AnyParams = AnyParams(
    hashGenesisBlock: Uint256,
    coinbaseMaturity: int,
    nIntervalLottery: nat,
    scan: TxOut -> Scan,
    storedKey: int -> Option<Uint256>,
    winners: (int, BlockIndex, int, Uint256) -> seq<TxOut>)

  type Params = p: AnyParams | p.nIntervalLottery > 0
    witness AnyParams(1, 100, 60, _ => NoPool, _ => None, (_, _, _, _) => [])

  // ---- serialized size ----

  function SizeOf(vtx: seq<Tx>, k: nat): nat
    requires k <= |vtx|
  {
    if k == 0 then 0 else SizeOf(vtx, k - 1) + TxSize(vtx[k - 1])
  }

  /** A block's header, 80 bytes as in Bitcoin and the lottery's part, and the number of its transactions. */
  function BlockOverhead(block: Block): nat {
    80 + 4 + CompactSizeLength(block.lottoHeader.nBitcoinHashes) + 36 * block.lottoHeader.nBitcoinHashes + 8 + 4 + 32
    + CompactSizeLength(|block.vtx|)
  }

  function BlockSize(block: Block): nat {
    BlockOverhead(block) + SizeOf(block.vtx, |block.vtx|)
  }

  /** Every transaction takes some space. */
  lemma {:induction false} CountBelowSize(vtx: seq<Tx>, k: nat)
    requires k <= |vtx|
    ensures k <= SizeOf(vtx, k)
  {
    hide TxSize;
    if k > 0 { CountBelowSize(vtx, k - 1); }
  }

  // ---- the subsidy ----

  /** Subsidy by height, plus the fees. */
  function GetBlockValue(nHeight: int, nFees: int): (v: int)
    ensures v > nFees
  {
    var nSubsidy :=
      if nHeight < 101 then 100000 * COIN
      else if nHeight < 105121 then 250 * COIN
      else if nHeight < 210240 then 130 * COIN
      else 20;
    nSubsidy + nFees
  }

  // ---- the lottery pool ----

  datatype TransactionState = NORMAL_STATE | INVALID_LOTTO_STATE | VALID_LOTTO_STATE

  /** Up to this height of the active chain an invalid bet counts like a valid one. */
  const LAST_UNCHECKED_HEIGHT: int := 4380

  /** The state after the first k outputs: the last output that set it decides. */
  function StateAfter(p: Params, nTipHeight: int, vout: seq<TxOut>, k: nat): TransactionState
    requires k <= |vout|
  {
    if k == 0 then NORMAL_STATE
    else
      match p.scan(vout[k - 1])
      case NoPool => NORMAL_STATE
      case Malformed => StateAfter(p, nTipHeight, vout, k - 1)
      case NoBet => StateAfter(p, nTipHeight, vout, k - 1)
      case Bet(valid) => if valid || nTipHeight <= LAST_UNCHECKED_HEIGHT then VALID_LOTTO_STATE else INVALID_LOTTO_STATE
  }

  /** Whether an output counts as a bet at its place. */
  predicate IsBet(p: Params, nTipHeight: int, vout: seq<TxOut>, i: nat)
    requires i < |vout|
  {
    !p.scan(vout[i]).Malformed? && StateAfter(p, nTipHeight, vout, i + 1) == VALID_LOTTO_STATE
  }

  predicate SetsState(p: Params, out: TxOut) {
    p.scan(out).NoPool? || p.scan(out).Bet?
  }

  /** Of the first n outputs, number j is the last that sets the state, and it is a bet. */
  ghost predicate LastSetIsBet(p: Params, nTipHeight: int, vout: seq<TxOut>, n: nat, j: nat)
    requires n <= |vout|
  {
    && j < n && SetsState(p, vout[j]) && IsBet(p, nTipHeight, vout, j)
    && forall k :: j < k < n ==> !SetsState(p, vout[k])
  }

  lemma {:induction false} LastSetter(p: Params, nTipHeight: int, vout: seq<TxOut>, n: nat)
    requires n <= |vout|
    ensures StateAfter(p, nTipHeight, vout, n) == VALID_LOTTO_STATE <==>
      exists j :: LastSetIsBet(p, nTipHeight, vout, n, j)
  {
    if n > 0 {
      var m := n - 1;
      LastSetter(p, nTipHeight, vout, m);
      if SetsState(p, vout[m]) && IsBet(p, nTipHeight, vout, m) {
        assert LastSetIsBet(p, nTipHeight, vout, n, m);
      }
      forall j: nat | j != m
        ensures LastSetIsBet(p, nTipHeight, vout, n, j) <==>
          LastSetIsBet(p, nTipHeight, vout, m, j) && !SetsState(p, vout[m])
      {
      }
    }
  }

  /** A payment to the pool without a bet counts as one exactly when, of the outputs before it, the last that pays
      elsewhere or carries a bet is itself a bet. */
  lemma BetCarriedOver(p: Params, nTipHeight: int, vout: seq<TxOut>, i: nat)
    requires i < |vout| && p.scan(vout[i]).NoBet?
    ensures IsBet(p, nTipHeight, vout, i) <==> exists j :: LastSetIsBet(p, nTipHeight, vout, i, j)
  {
    LastSetter(p, nTipHeight, vout, i);
  }

  /** An output with a bet counts exactly if the bet is valid or the chain no higher than 4380; one that pays elsewhere or
      cannot be read never does. */
  lemma BetCases(p: Params, nTipHeight: int, vout: seq<TxOut>, i: nat)
    requires i < |vout|
    ensures p.scan(vout[i]).Bet? ==> (IsBet(p, nTipHeight, vout, i) <==> p.scan(vout[i]).valid || nTipHeight <= 4380)
    ensures p.scan(vout[i]).NoPool? || p.scan(vout[i]).Malformed? ==> !IsBet(p, nTipHeight, vout, i)
  {
  }

  /** The type of an output, if its script can be read: it stays as it was before an output that does not set it. */
  method GetLottoTxOutType(p: Params, nTipHeight: int, out: TxOut, before: TransactionState)
    returns (ok: bool, TxType: TransactionState)
    ensures ok <==> !p.scan(out).Malformed?
    ensures TxType == match p.scan(out)
      case NoPool => NORMAL_STATE
      case Bet(valid) => if valid || nTipHeight <= LAST_UNCHECKED_HEIGHT then VALID_LOTTO_STATE else INVALID_LOTTO_STATE
      case _ => before
  {
    TxType := before;
    match p.scan(out) {
      case NoPool => TxType := NORMAL_STATE;
      case Malformed => return false, TxType;
      case NoBet =>
      case Bet(valid) =>
        if !valid {
          TxType := INVALID_LOTTO_STATE;
          if nTipHeight > LAST_UNCHECKED_HEIGHT { return true, TxType; }
        }
        TxType := VALID_LOTTO_STATE;
    }
    ok := true;
  }

  /** An output whose script can be read and that does not leave the state at an invalid bet. */
  predicate OutValid(p: Params, nTipHeight: int, vout: seq<TxOut>, i: nat)
    requires i < |vout|
  {
    !p.scan(vout[i]).Malformed? && StateAfter(p, nTipHeight, vout, i + 1) != INVALID_LOTTO_STATE
  }

  ghost predicate BetsValid(p: Params, nTipHeight: int, tx: Tx) {
    forall i :: 0 <= i < |tx.vout| ==> OutValid(p, nTipHeight, tx.vout, i)
  }

  method IsTransactionValid(p: Params, nTipHeight: int, tx: Tx) returns (valid: bool)
    ensures valid <==> BetsValid(p, nTipHeight, tx)
  {
    var iTxType := NORMAL_STATE;
    for i := 0 to |tx.vout|
      invariant iTxType == StateAfter(p, nTipHeight, tx.vout, i)
      invariant forall k :: 0 <= k < i ==> OutValid(p, nTipHeight, tx.vout, k)
    {
      var ok;
      ok, iTxType := GetLottoTxOutType(p, nTipHeight, tx.vout[i], iTxType);
      assert iTxType == StateAfter(p, nTipHeight, tx.vout, i + 1);
      if !ok || iTxType == INVALID_LOTTO_STATE {
        assert !OutValid(p, nTipHeight, tx.vout, i);
        return false;
      }
    }
    return true;
  }

  /** An output that can be read and, above height 4380, carries no invalid bet. */
  predicate InOrder(p: Params, nTipHeight: int, out: TxOut) {
    !p.scan(out).Malformed? && (p.scan(out).Bet? ==> p.scan(out).valid || nTipHeight <= 4380)
  }

  lemma {:induction false} NotInvalid(p: Params, nTipHeight: int, vout: seq<TxOut>, k: nat)
    requires k <= |vout| && forall i :: 0 <= i < k ==> InOrder(p, nTipHeight, vout[i])
    ensures StateAfter(p, nTipHeight, vout, k) != INVALID_LOTTO_STATE
  {
    if k > 0 { NotInvalid(p, nTipHeight, vout, k - 1); }
  }

  /** The carried type does not matter here: a transaction passes exactly when each of its outputs is in order. */
  lemma BetsValidWhen(p: Params, nTipHeight: int, tx: Tx)
    ensures BetsValid(p, nTipHeight, tx) <==> forall i :: 0 <= i < |tx.vout| ==> InOrder(p, nTipHeight, tx.vout[i])
  {
    if BetsValid(p, nTipHeight, tx) {
      forall i | 0 <= i < |tx.vout| ensures InOrder(p, nTipHeight, tx.vout[i]) {
        assert OutValid(p, nTipHeight, tx.vout, i);
      }
    } else {
      var i :| 0 <= i < |tx.vout| && !OutValid(p, nTipHeight, tx.vout, i);
      if forall j :: 0 <= j < |tx.vout| ==> InOrder(p, nTipHeight, tx.vout[j]) {
        NotInvalid(p, nTipHeight, tx.vout, i + 1);
      }
    }
  }

  /** Value of the bets among the first k outputs. */
  function BetsOfOuts(p: Params, nTipHeight: int, vout: seq<TxOut>, k: nat): int
    requires k <= |vout|
  {
    if k == 0 then 0
    else BetsOfOuts(p, nTipHeight, vout, k - 1) + if IsBet(p, nTipHeight, vout, k - 1) then vout[k - 1].nValue else 0
  }

  function BetsOfTx(p: Params, nTipHeight: int, tx: Tx): int {
    if tx.IsCoinBase() then 0 else BetsOfOuts(p, nTipHeight, tx.vout, |tx.vout|)
  }

  function BetsOfTxs(p: Params, nTipHeight: int, vtx: seq<Tx>, k: nat): int
    requires k <= |vtx|
  {
    if k == 0 then 0 else BetsOfTxs(p, nTipHeight, vtx, k - 1) + BetsOfTx(p, nTipHeight, vtx[k - 1])
  }

  function BetsOfBlock(p: Params, nTipHeight: int, block: Block): int {
    BetsOfTxs(p, nTipHeight, block.vtx, |block.vtx|)
  }

  function OutsAt(vout: seq<TxOut>, at: seq<nat>): (r: seq<TxOut>)
    requires forall j :: 0 <= j < |at| ==> at[j] < |vout|
    ensures |r| == |at|
  {
    seq(|at|, j requires 0 <= j < |at| => vout[at[j]])
  }

  /** The places of the bets among the first n outputs, in order. */
  ghost predicate BetPlaces(p: Params, nTipHeight: int, vout: seq<TxOut>, n: nat, at: seq<nat>)
    requires n <= |vout|
  {
    && (forall i, j :: 0 <= i < j < |at| ==> at[i] < at[j])
    && (forall i: nat :: i in at <==> i < n && IsBet(p, nTipHeight, vout, i))
  }

  lemma OutsInit(vout: seq<TxOut>, at: seq<nat>)
    requires at != [] && forall j :: 0 <= j < |at| ==> at[j] < |vout|
    ensures OutsAt(vout, at)[..|at| - 1] == OutsAt(vout, at[..|at| - 1])
    ensures OutsAt(vout, at)[|at| - 1] == vout[at[|at| - 1]]
  {
    var all, init := OutsAt(vout, at), OutsAt(vout, at[..|at| - 1]);
    assert |all| == |at| && |init| == |at| - 1;
    assert forall j :: 0 <= j < |init| ==> init[j] == all[j];
  }

  lemma PlacesBelow(p: Params, nTipHeight: int, vout: seq<TxOut>, n: nat, at: seq<nat>)
    requires n <= |vout| && BetPlaces(p, nTipHeight, vout, n, at)
    ensures forall j :: 0 <= j < |at| ==> at[j] < n
    ensures n == 0 ==> at == []
  {
    hide IsBet;
    forall j | 0 <= j < |at| ensures at[j] < n { assert at[j] in at; }
    if at != [] { assert at[0] in at; }
  }

  lemma PlacesBefore(p: Params, nTipHeight: int, vout: seq<TxOut>, n: nat, at: seq<nat>)
    requires 0 < n <= |vout| && BetPlaces(p, nTipHeight, vout, n, at)
    ensures if IsBet(p, nTipHeight, vout, n - 1)
            then at != [] && at[|at| - 1] == n - 1 && BetPlaces(p, nTipHeight, vout, n - 1, at[..|at| - 1])
            else BetPlaces(p, nTipHeight, vout, n - 1, at)
  {
    hide IsBet;
    PlacesBelow(p, nTipHeight, vout, n, at);
    if IsBet(p, nTipHeight, vout, n - 1) {
      var last: nat := n - 1;
      assert last in at;
      assert forall i :: 0 <= i < |at| - 1 ==> at[i] < at[|at| - 1];
      var j :| 0 <= j < |at| && at[j] == last;
      assert at[j] <= at[|at| - 1];
    } else {
      forall i: nat | i in at ensures i < n - 1 { assert IsBet(p, nTipHeight, vout, i); }
    }
  }

  lemma {:induction false} BetsOfOutsAre(p: Params, nTipHeight: int, vout: seq<TxOut>, n: nat, at: seq<nat>)
    requires n <= |vout| && BetPlaces(p, nTipHeight, vout, n, at)
    ensures forall j :: 0 <= j < |at| ==> at[j] < n
    ensures BetsOfOuts(p, nTipHeight, vout, n) == SumOuts(OutsAt(vout, at))
  {
    hide IsBet, BetPlaces, OutsAt;
    PlacesBelow(p, nTipHeight, vout, n, at);
    if n > 0 {
      PlacesBefore(p, nTipHeight, vout, n, at);
      if IsBet(p, nTipHeight, vout, n - 1) {
        BetsOfOutsAre(p, nTipHeight, vout, n - 1, at[..|at| - 1]);
        OutsInit(vout, at);
      } else {
        BetsOfOutsAre(p, nTipHeight, vout, n - 1, at);
      }
    } else {
      assert OutsAt(vout, at) == [];
    }
  }

  /** A coinbase bets nothing, another transaction the value of those of its outputs that are bets. */
  lemma BetsWorth(p: Params, nTipHeight: int, tx: Tx, at: seq<nat>)
    requires BetPlaces(p, nTipHeight, tx.vout, |tx.vout|, at)
    ensures forall j :: 0 <= j < |at| ==> at[j] < |tx.vout|
    ensures BetsOfTx(p, nTipHeight, tx) == if tx.IsCoinBase() then 0 else SumOuts(OutsAt(tx.vout, at))
  {
    BetsOfOutsAre(p, nTipHeight, tx.vout, |tx.vout|, at);
  }

  /** The lottery id and key for the block after a given height; the first draws use a fixed key. */
  function GetLotteryKey(p: Params, nHeight: nat): Option<(int, Uint256)>
  {
    if nHeight <= 2 * p.nIntervalLottery then Some((0, 1))
    else
      var nID := nHeight / p.nIntervalLottery - 1;
      match p.storedKey(nID)
      case None => None
      case Some(key) => Some((nID, key))
  }

  /** What the coinbase pays beyond the miner's own output. */
  function PayoutOuts(block: Block): seq<TxOut> {
    if block.vtx == [] || block.vtx[0].vout == [] then [] else block.vtx[0].vout[1..]
  }

  /** A draw is due when the chain is long enough and the header carries a key. */
  predicate DrawDue(p: Params, prev: BlockIndex, block: Block) {
    prev.nHeight >= 2 * p.nIntervalLottery && block.lottoHeader.uLottoKey != 0
  }

  /** The pool and payout rules for a block after prev, which is then the active tip. */
  predicate LottoResultOk(p: Params, prev: BlockIndex, block: Block)
    requires block.vtx != [] && block.vtx[0].vout != []
  {
    var head, prevHead := block.lottoHeader, prev.block.lottoHeader;
    if DrawDue(p, prev, block) then
      match GetLotteryKey(p, prev.nHeight)
      case None => false
      case Some((nID, key)) =>
        var vTxOut := p.winners(prevHead.llPool, prev, nID, key);
        && key == head.uLottoKey
        && nID == head.nLottoID
        && head.llPool + SumOuts(vTxOut) == prevHead.llPool + BetsOfBlock(p, prev.nHeight, block)
        && vTxOut == PayoutOuts(block)
    else
      && head.llPool == prevHead.llPool + BetsOfBlock(p, prev.nHeight, block)
      && |block.vtx[0].vout| == 1
      && (prev.nHeight % p.nIntervalLottery != 0 && prevHead.uLottoKey != 0 && prevHead.uLottoKey != 1 ==>
            head.uLottoKey != 0)
  }

  /** In every accepted block the pool grows by the bets and shrinks by what the coinbase pays out. */
  lemma PoolEquation(p: Params, prev: BlockIndex, block: Block)
    requires block.vtx != [] && block.vtx[0].vout != []
    requires LottoResultOk(p, prev, block)
    ensures block.lottoHeader.llPool ==
      prev.block.lottoHeader.llPool + BetsOfBlock(p, prev.nHeight, block) - SumOuts(PayoutOuts(block))
  {
    if !DrawDue(p, prev, block) {
      assert PayoutOuts(block) == [];
    }
  }

  method GetLottoValueFromTx(p: Params, nTipHeight: int, tx: Tx) returns (nCurBetValue: int)
    ensures nCurBetValue == BetsOfTx(p, nTipHeight, tx)
  {
    nCurBetValue := 0;
    var iTxType := NORMAL_STATE;
    if !tx.IsCoinBase() {
      for i := 0 to |tx.vout|
        invariant nCurBetValue == BetsOfOuts(p, nTipHeight, tx.vout, i)
        invariant iTxType == StateAfter(p, nTipHeight, tx.vout, i)
      {
        var ok;
        ok, iTxType := GetLottoTxOutType(p, nTipHeight, tx.vout[i], iTxType);
        if ok && iTxType == VALID_LOTTO_STATE {
          nCurBetValue := nCurBetValue + tx.vout[i].nValue;
        }
      }
    }
  }

  method GetLottoValueFromBlock(p: Params, nTipHeight: int, block: Block) returns (nCurBetValue: int)
    ensures nCurBetValue == BetsOfBlock(p, nTipHeight, block)
  {
    nCurBetValue := 0;
    for i := 0 to |block.vtx|
      invariant nCurBetValue == BetsOfTxs(p, nTipHeight, block.vtx, i)
    {
      var v := GetLottoValueFromTx(p, nTipHeight, block.vtx[i]);
      nCurBetValue := nCurBetValue + v;
    }
  }

  /** The winners' outputs with their total, which the draw adds up as it pushes them. */
  method DrawLottery(p: Params, drawPool: int, prev: BlockIndex, nID: int, uLottoKey: Uint256)
    returns (vTxOut: seq<TxOut>, llRewards: int)
    ensures llRewards == SumOuts(vTxOut)
    ensures vTxOut == if prev.nHeight < 2 * p.nIntervalLottery || uLottoKey == 0 then []
                      else p.winners(drawPool, prev, nID, uLottoKey)
  {
    vTxOut, llRewards := [], 0;
    if prev.nHeight < 2 * p.nIntervalLottery || uLottoKey == 0 { return; }
    var won := p.winners(drawPool, prev, nID, uLottoKey);
    for i := 0 to |won|
      invariant vTxOut == won[..i] && llRewards == SumOuts(vTxOut)
    {
      vTxOut := vTxOut + [won[i]];
      llRewards := llRewards + won[i].nValue;
      assert vTxOut[..i] == won[..i];
    }
  }

  method CheckLottoResult(p: Params, prev: BlockIndex, block: Block) returns (ok: bool)
    requires block.vtx != [] && block.vtx[0].vout != []
    ensures ok <==> LottoResultOk(p, prev, block)
  {
    var head, prevHead := block.lottoHeader, prev.block.lottoHeader;
    var nCurBetValue := GetLottoValueFromBlock(p, prev.nHeight, block);
    if prev.nHeight >= 2 * p.nIntervalLottery && head.uLottoKey != 0 {
      var lottoTxOut := block.vtx[0].vout[1..];
      var known := GetLotteryKey(p, prev.nHeight);
      if known.None? { return false; }
      var (nID, lottoKey) := known.value;
      if lottoKey != head.uLottoKey || nID != head.nLottoID { return false; }
      var vTxOut, llRewards := DrawLottery(p, prevHead.llPool, prev, nID, lottoKey);
      if head.llPool + llRewards != prevHead.llPool + nCurBetValue { return false; }
      if vTxOut != lottoTxOut { return false; }
    } else {
      if head.llPool != prevHead.llPool + nCurBetValue { return false; }
      if |block.vtx[0].vout| != 1 { return false; }
      if prev.nHeight % p.nIntervalLottery != 0 {
        if prevHead.uLottoKey != 0 && prevHead.uLottoKey != 1 && head.uLottoKey == 0 { return false; }
      }
    }
    return true;
  }
}
