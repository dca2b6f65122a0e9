/** Who the lottery pays, block by block (src/main.cpp: CheckLottoResult, GetLotteryKey). */
module Lottery {
  import opened Core
  import opened Utxo
  import opened Blocks
  import opened BlockConnect
  import opened ChainState

  /** The id and key that are right for a draw after a height: a fixed pair for the first, then the stored key of the
      round that ended. */
  ghost predicate RightKey(p: Params, nHeight: nat, nID: int, key: Uint256) {
    if nHeight <= 2 * p.nIntervalLottery then nID == 0 && key == 1
    else nID == nHeight / p.nIntervalLottery - 1 && p.storedKey(nID) == Some(key)
  }

  /** In every block of a valid branch: after two intervals, if the header carries a key, it is the right one with the
      right id, and the coinbase pays, after the miner, exactly the winners drawn with it from the parent's pool, in
      order; otherwise it pays the miner alone. The pool is the parent's plus the bets less these payments. */
  lemma WinnersPaid(p: Params, b: BlockIndex)
    requires InTree(p, b) && ValidBranch(p, b) && b.pprev.Some?
    ensures var prev, head, vtx := b.pprev.value, b.block.lottoHeader, b.block.vtx;
      && vtx != [] && vtx[0].vout != []
      && var paid := vtx[0].vout[1..];
      && (prev.nHeight >= 2 * p.nIntervalLottery && head.uLottoKey != 0 ==>
            && RightKey(p, prev.nHeight, head.nLottoID, head.uLottoKey)
            && paid == p.winners(prev.block.lottoHeader.llPool, prev, head.nLottoID, head.uLottoKey))
      && (prev.nHeight < 2 * p.nIntervalLottery || head.uLottoKey == 0 ==> paid == [])
      && head.llPool == prev.block.lottoHeader.llPool + BetsOfTxs(p, prev.nHeight, vtx, |vtx|) - SumOuts(paid)
  {
    hide BetsOfTxs, FeesOf, AllInputsOk, SigOpsOk, BlockLimits, NoOverwrite, UtxoBefore, SumOuts;
    NothingPaid();
  }

  lemma NothingPaid()
    ensures SumOuts([]) == 0
  {
  }

  /** A key may be left out only right after the round's last block, or if the parent had none, or the fixed one. */
  lemma KeyCarriedOn(p: Params, b: BlockIndex)
    requires InTree(p, b) && ValidBranch(p, b) && b.pprev.Some? && b.block.lottoHeader.uLottoKey == 0
    ensures b.pprev.value.nHeight % p.nIntervalLottery == 0 || b.pprev.value.block.lottoHeader.uLottoKey in {0, 1}
  {
    hide BetsOfTxs, FeesOf, AllInputsOk, SigOpsOk, BlockLimits, NoOverwrite, UtxoBefore, SumOuts;
  }
}
