/** Connecting a block to a coin view and disconnecting it again (src/main.cpp). */
module BlockConnect {
  import opened Core
  import opened Coins
  import opened Utxo
  import opened CoinsView
  import opened Blocks
  import opened SigOps

  /** The undo files: at most one record, in stored form, for each entry of the block tree. */
  class UndoStore {
    var records: map<BlockIndex, BlockUndo>

    constructor ()
      ensures records == map[]
    {
      records := map[];
    }
  }

  // ---- what ConnectBlock accepts ----

  /** An input is there, mature, and keeps the running total in range. */
  predicate InputOk(p: Params, m: CoinMap, vin: seq<TxIn>, i: nat, h: nat)
    requires i < |vin|
  {
    var o := vin[i].prevout;
    && Avail(m, o)
    && (m[o.hash].fCoinBase ==> h - m[o.hash].nHeight >= p.coinbaseMaturity)
    && MoneyRange(ValueOf(m, o))
    && MoneyRange(ValueIn(m, vin, i + 1))
  }

  /** Inputs minus outputs; a coinbase pays no fee. */
  function FeeOf(m: CoinMap, tx: Tx): int {
    if tx.IsCoinBase() then 0 else ValueIn(m, tx.vin, |tx.vin|) - SumOuts(tx.vout)
  }

  /** The value and maturity rules for one transaction against the database before it. */
  ghost predicate InputsOk(p: Params, m: CoinMap, tx: Tx, h: nat) {
    tx.IsCoinBase() || (
      && (forall i :: 0 <= i < |tx.vin| ==> InputOk(p, m, tx.vin, i, h))
      && MoneyRange(FeeOf(m, tx)))
  }

  function FeesOf(m: CoinMap, vtx: seq<Tx>, k: nat, h: nat): int
    requires k <= |vtx|
  {
    if k == 0 then 0 else FeesOf(m, vtx, k - 1, h) + FeeOf(ApplyTxs(m, vtx, k - 1, h), vtx[k - 1])
  }

  /** The transaction at position i meets the rules once the ones before it are applied. */
  ghost predicate TxOkAt(p: Params, m: CoinMap, vtx: seq<Tx>, i: nat, h: nat)
    requires i < |vtx|
  {
    InputsOk(p, ApplyTxs(m, vtx, i, h), vtx[i], h)
  }

  ghost predicate AllInputsOk(p: Params, m: CoinMap, vtx: seq<Tx>, h: nat) {
    forall i :: 0 <= i < |vtx| ==> TxOkAt(p, m, vtx, i, h)
  }

  /** Size and signature operations of a block as far as they need no context. */
  predicate BlockLimits(block: Block) {
    && |block.vtx| <= MAX_BLOCK_SIZE
    && BlockSize(block) <= MAX_BLOCK_SIZE
    && LegacySigOpsOf(block.vtx, |block.vtx|) <= MAX_BLOCK_SIGOPS
  }

  ghost predicate SigOpsOk(m: CoinMap, vtx: seq<Tx>, h: nat) {
    SigOpsOf(m, vtx, |vtx|, h) <= MAX_BLOCK_SIGOPS
  }

  /** Every rule checked for a block above genesis at entry pindex on the database m. */
  ghost predicate Accepts(p: Params, m: CoinMap, pindex: BlockIndex) {
    var vtx := pindex.block.vtx;
    && pindex.pprev.Some?
    && WellFormedBlock(vtx)
    && BlockLimits(pindex.block)
    && LottoResultOk(p, pindex.pprev.value, pindex.block)
    && NoOverwrite(m, vtx)
    && AllInputsOk(p, m, vtx, pindex.nHeight)
    && SigOpsOk(m, vtx, pindex.nHeight)
    && vtx[0].vout[0].nValue <= GetBlockValue(pindex.nHeight, FeesOf(m, vtx, |vtx|, pindex.nHeight))
  }

  ghost predicate IsGenesis(p: Params, pindex: BlockIndex) {
    pindex.block.hash == p.hashGenesisBlock
  }

  /** When ConnectBlock succeeds. The genesis block's transactions are never connected. */
  ghost predicate CanConnect(p: Params, m: CoinMap, best: Uint256, pindex: BlockIndex) {
    && WellFormedBlock(pindex.block.vtx) && BlockLimits(pindex.block)
    && PrevHash(pindex) == best
    && (IsGenesis(p, pindex) || Accepts(p, m, pindex))
  }

  ghost function AfterConnect(p: Params, m: CoinMap, pindex: BlockIndex): CoinMap {
    if IsGenesis(p, pindex) then m else ApplyTxs(m, pindex.block.vtx, |pindex.block.vtx|, pindex.nHeight)
  }

  lemma InputsOkHave(p: Params, m: CoinMap, tx: Tx, h: nat)
    requires InputsOk(p, m, tx, h)
    ensures Utxo.HaveInputs(m, Inputs(tx))
  {
    forall i | 0 <= i < |Inputs(tx)| ensures Avail(m, Inputs(tx)[i].prevout) {
      assert InputOk(p, m, tx.vin, i, h);
    }
  }

  lemma AcceptsConnectable(p: Params, m: CoinMap, pindex: BlockIndex)
    requires Accepts(p, m, pindex) && pindex.nHeight > 0
    ensures Connectable(m, pindex.block.vtx, pindex.nHeight)
  {
    var vtx := pindex.block.vtx;
    forall i | 0 <= i < |vtx| ensures InputsAtTurn(m, vtx, i, pindex.nHeight) {
      assert TxOkAt(p, m, vtx, i, pindex.nHeight);
      InputsOkHave(p, ApplyTxs(m, vtx, i, pindex.nHeight), vtx[i], pindex.nHeight);
    }
  }

  // ---- checking and connecting ----

  /** The rules for a block that need no context. */
  method CheckBlock(block: Block) returns (ok: bool)
    ensures ok <==> WellFormedBlock(block.vtx) && BlockLimits(block)
  {
    hide BlockSize, LegacySigOps, WellFormedTx;
    var vtx := block.vtx;
    if vtx == [] || |vtx| > MAX_BLOCK_SIZE || BlockSize(block) > MAX_BLOCK_SIZE { return false; }
    if !vtx[0].IsCoinBase() { return false; }
    for i := 1 to |vtx|
      invariant forall k :: 1 <= k < i ==> !vtx[k].IsCoinBase()
    {
      if vtx[i].IsCoinBase() { return false; }
    }
    for i := 0 to |vtx|
      invariant forall k :: 0 <= k < i ==> WellFormedTx(vtx[k])
    {
      var txOk := CheckTransaction(vtx[i]);
      if !txOk { return false; }
    }
    ok := UniqueTxids(vtx);
    if !ok { return; }
    var nSigOps := 0;
    for i := 0 to |vtx|
      invariant nSigOps == LegacySigOpsOf(vtx, i)
    {
      var n := GetLegacySigOpCount(vtx[i]);
      nSigOps := nSigOps + n;
    }
    return nSigOps <= MAX_BLOCK_SIGOPS;
  }

  lemma HasCoinbase(vtx: seq<Tx>)
    requires WellFormedBlock(vtx)
    ensures vtx != [] && vtx[0].vout != []
  {
  }

  method UniqueTxids(vtx: seq<Tx>) returns (ok: bool)
    ensures ok <==> forall i, j :: 0 <= i < j < |vtx| ==> vtx[i].hash != vtx[j].hash
  {
    var uniqueTx: set<Uint256> := {};
    for i := 0 to |vtx|
      invariant uniqueTx == set k | 0 <= k < i :: vtx[k].hash
      invariant |uniqueTx| <= i
      invariant |uniqueTx| == i <==> forall j, k :: 0 <= j < k < i ==> vtx[j].hash != vtx[k].hash
    {
      uniqueTx := uniqueTx + {vtx[i].hash};
    }
    return |uniqueTx| == |vtx|;
  }

  /** HaveInputs and the value rules of CheckInputs; script checks are left to the caller's environment. */
  method CheckInputs(p: Params, tx: Tx, view: CCoinsViewCache, h: nat) returns (ok: bool)
    requires view.Valid()
    modifies view.Repr
    ensures view.OnlyFilled() && view.SameBest()
    ensures ok <==> InputsOk(p, view.Map(), tx, h)
  {
    if tx.IsCoinBase() { return true; }
    var have := view.HaveInputs(tx);
    if !have {
      MissingInput(p, view.Map(), tx.vin, h);
      return false;
    }
    var nValueIn;
    ok, nValueIn := SumCheckedInputs(p, tx.vin, view, h);
    if !ok { return false; }
    var nValueOut := SumOuts(tx.vout);
    if nValueIn < nValueOut { return false; }
    return MoneyRange(nValueIn - nValueOut);
  }

  lemma MissingInput(p: Params, m: CoinMap, vin: seq<TxIn>, h: nat)
    requires !Utxo.HaveInputs(m, vin)
    ensures exists i :: 0 <= i < |vin| && !InputOk(p, m, vin, i, h)
  {
    var i :| 0 <= i < |vin| && !Avail(m, vin[i].prevout);
    assert !InputOk(p, m, vin, i, h);
  }

  method SumCheckedInputs(p: Params, vin: seq<TxIn>, view: CCoinsViewCache, h: nat)
    returns (ok: bool, nValueIn: int)
    requires view.Valid() && Utxo.HaveInputs(view.Map(), vin)
    modifies view.Repr
    ensures view.OnlyFilled() && view.SameBest()
    ensures ok <==> forall k :: 0 <= k < |vin| ==> InputOk(p, view.Map(), vin, k, h)
    ensures ok ==> nValueIn == ValueIn(view.Map(), vin, |vin|)
  {
    nValueIn := 0;
    ghost var m := view.Map();
    for i := 0 to |vin|
      invariant view.OnlyFilled() && view.SameBest()
      invariant nValueIn == ValueIn(m, vin, i)
      invariant forall k :: 0 <= k < i ==> InputOk(p, m, vin, k, h)
    {
      var prevout := vin[i].prevout;
      assert Avail(m, prevout);
      var found, coins := view.GetCoins(prevout.hash);
      nValueIn := nValueIn + coins.vout[prevout.n].nValue;
      var good :=
        && !(coins.fCoinBase && h - coins.nHeight < p.coinbaseMaturity)
        && MoneyRange(coins.vout[prevout.n].nValue) && MoneyRange(nValueIn);
      assert good <==> InputOk(p, m, vin, i, h);
      if !good { return false, nValueIn; }
    }
    return true, nValueIn;
  }

  method NewCoins(tx: Tx, nHeight: nat) returns (coins: Coins)
    ensures coins == FromTx(tx, nHeight)
  {
    var c := new CCoins.OfTx(tx, nHeight);
    coins := c.Get();
  }

  method SpendValue(value: Coins, out: OutPoint) returns (ok: bool, left: Coins, undo: TxInUndo)
    ensures ok <==> value.IsAvailable(out.n)
    ensures left == SpendAt(value, out.n)
    ensures ok ==> undo == UndoOfSpend(value, out.n)
  {
    var c := new CCoins(value);
    ok, undo := c.Spend(out);
    left := c.Get();
  }

  /** Spend the inputs through the cached entries, recording undo data, then add the outputs. */
  method UpdateCoins(tx: Tx, inputs: CCoinsViewCache, nHeight: nat) returns (txundo: TxUndo)
    requires inputs.Valid()
    requires SpendableInTurn(inputs.Map(), Inputs(tx))
    modifies inputs.Repr
    ensures inputs.Map() == ApplyTx(old(inputs.Map()), tx, nHeight)
    ensures inputs.SameBest() && inputs.SameBelow()
    ensures txundo == UndosOf(old(inputs.Map()), Inputs(tx))
  {
    txundo := [];
    if !tx.IsCoinBase() {
      txundo := SpendVin(tx.vin, inputs);
    }
    var coins := NewCoins(tx, nHeight);
    inputs.SetCoins(tx.hash, coins);
  }

  method SpendVin(vin: seq<TxIn>, inputs: CCoinsViewCache) returns (txundo: TxUndo)
    requires inputs.Valid()
    requires SpendableInTurn(inputs.Map(), vin)
    modifies inputs.Repr
    ensures inputs.Map() == SpendInputs(old(inputs.Map()), vin, |vin|)
    ensures inputs.SameBest() && inputs.SameBelow()
    ensures txundo == UndosOf(old(inputs.Map()), vin)
  {
    hide SpendInput, UndoFor;
    txundo := [];
    ghost var m := inputs.Map();
    for i := 0 to |vin|
      invariant inputs.Map() == SpendInputs(m, vin, i)
      invariant inputs.SameBest() && inputs.SameBelow()
      invariant txundo == UndosOf(m, vin)[..i]
    {
      assert SpendableAt(m, vin, i);
      var undo := SpendThroughCache(inputs, vin[i].prevout);
      assert undo == UndosOf(m, vin)[i];
      txundo := txundo + [undo];
    }
  }

  /** Spend one output in place in the cached entry. */
  method SpendThroughCache(inputs: CCoinsViewCache, out: OutPoint) returns (undo: TxInUndo)
    requires inputs.Valid() && Avail(inputs.Map(), out)
    modifies inputs.Repr
    ensures inputs.Map() == SpendInput(old(inputs.Map()), out)
    ensures inputs.SameBest() && inputs.SameBelow()
    ensures undo == UndoFor(old(inputs.Map()), out)
  {
    var found, value := inputs.GetCoins(out.hash);
    var ok, left;
    ok, left, undo := SpendValue(value, out);
    inputs.SetCoins(out.hash, left);
  }

  /** BIP 30: refuse a block one of whose txids names a live entry. */
  method CheckNoOverwrite(vtx: seq<Tx>, view: CCoinsViewCache) returns (ok: bool)
    requires view.Valid()
    modifies view.Repr
    ensures view.OnlyFilled() && view.SameBest()
    ensures ok <==> NoOverwrite(view.Map(), vtx)
  {
    ghost var m := view.Map();
    for i := 0 to |vtx|
      invariant view.OnlyFilled() && view.SameBest()
      invariant forall k :: 0 <= k < i ==> vtx[k].hash !in Live(m)
    {
      var found, value := view.GetCoins(vtx[i].hash);
      var pruned := IsPrunedValue(value);
      if found && !pruned {
        assert vtx[i].hash in Live(m);
        return false;
      }
    }
    return true;
  }

  /** One turn of the loop of ConnectBlock. */
  method ConnectTx(p: Params, tx: Tx, view: CCoinsViewCache, h: nat, nSigOpsIn: nat)
    returns (ok: bool, nSigOps: nat, nFee: int, txundo: TxUndo)
    requires view.Valid() && WellFormedTx(tx)
    modifies view.Repr
    ensures view.SameBest() && view.SameBelow()
    ensures ok <==>
      InputsOk(p, old(view.Map()), tx, h) && nSigOpsIn + TxSigOps(old(view.Map()), tx) <= MAX_BLOCK_SIGOPS
    ensures ok ==> view.Map() == ApplyTx(old(view.Map()), tx, h)
    ensures ok ==> nFee == FeeOf(old(view.Map()), tx) && txundo == UndosOf(old(view.Map()), Inputs(tx))
    ensures ok ==> nSigOps == nSigOpsIn + TxSigOps(old(view.Map()), tx)
  {
    hide LegacySigOps, RedeemSigOps;
    ghost var m := view.Map();
    nFee, txundo := 0, [];
    var n := GetLegacySigOpCount(tx);
    nSigOps := nSigOpsIn + n;
    if nSigOps > MAX_BLOCK_SIGOPS { return false, nSigOps, nFee, txundo; }
    if !tx.IsCoinBase() {
      var have := view.HaveInputs(tx);
      if !have {
        MissingInput(p, m, tx.vin, h);
        return false, nSigOps, nFee, txundo;
      }
      n := GetP2SHSigOpCount(tx, view);
      nSigOps := nSigOps + n;
      if nSigOps > MAX_BLOCK_SIGOPS { return false, nSigOps, nFee, txundo; }
      var nValueIn := view.GetValueIn(tx);
      nFee := nValueIn - SumOuts(tx.vout);
      ok := CheckInputs(p, tx, view, h);
      if !ok { return; }
    }
    ok := true;
    InputsOkHave(p, m, tx, h);
    HaveInputsSpendable(m, Inputs(tx));
    txundo := UpdateCoins(tx, view, h);
  }

  /** Every transaction of the block in turn, with the fees and the undo data. */
  method ConnectTxs(p: Params, vtx: seq<Tx>, view: CCoinsViewCache, h: nat)
    returns (ok: bool, nFees: int, blockundo: BlockUndo)
    requires view.Valid() && CoinbaseFirst(vtx) && AllWellFormed(vtx)
    modifies view.Repr
    ensures view.SameBest() && view.SameBelow()
    ensures ok <==> AllInputsOk(p, old(view.Map()), vtx, h) && SigOpsOk(old(view.Map()), vtx, h)
    ensures ok ==> view.Map() == ApplyTxs(old(view.Map()), vtx, |vtx|, h)
    ensures ok ==> nFees == FeesOf(old(view.Map()), vtx, |vtx|, h)
    ensures ok ==> blockundo == BlockUndoOf(old(view.Map()), vtx, h)
  {
    hide InputsOk, FeeOf, UndosOf, ApplyTx, TxSigOps, WellFormedTx;
    ghost var m := view.Map();
    nFees, blockundo := 0, [];
    var nSigOps: nat := 0;
    for i := 0 to |vtx|
      invariant view.SameBest() && view.SameBelow()
      invariant view.Map() == ApplyTxs(m, vtx, i, h)
      invariant nFees == FeesOf(m, vtx, i, h) && nSigOps == SigOpsOf(m, vtx, i, h) <= MAX_BLOCK_SIGOPS
      invariant blockundo == BlockUndoOf(m, vtx, h)[..if i == 0 then 0 else i - 1]
      invariant forall k :: 0 <= k < i ==> TxOkAt(p, m, vtx, k, h)
    {
      var nFee, txundo;
      SigOpsGrow(m, vtx, i + 1, |vtx|, h);
      ok, nSigOps, nFee, txundo := ConnectTx(p, vtx[i], view, h, nSigOps);
      assert ok <==> TxOkAt(p, m, vtx, i, h) && SigOpsOf(m, vtx, i + 1, h) <= MAX_BLOCK_SIGOPS;
      if !ok { return; }
      nFees := nFees + nFee;
      if !vtx[i].IsCoinBase() {
        assert txundo == BlockUndoOf(m, vtx, h)[i - 1];
        blockundo := blockundo + [txundo];
      }
    }
    return true, nFees, blockundo;
  }

  /** The part of ConnectBlock that works on the view: BIP 30, the transactions, the coinbase value. */
  method ApplyBlock(p: Params, vtx: seq<Tx>, view: CCoinsViewCache, h: nat)
    returns (ok: bool, blockundo: BlockUndo)
    requires view.Valid() && WellFormedBlock(vtx)
    modifies view.Repr
    ensures view.SameBest() && view.SameBelow()
    ensures ok <==>
      && NoOverwrite(old(view.Map()), vtx)
      && AllInputsOk(p, old(view.Map()), vtx, h)
      && SigOpsOk(old(view.Map()), vtx, h)
      && vtx[0].vout[0].nValue <= GetBlockValue(h, FeesOf(old(view.Map()), vtx, |vtx|, h))
    ensures ok ==> view.Map() == ApplyTxs(old(view.Map()), vtx, |vtx|, h)
    ensures ok ==> blockundo == BlockUndoOf(old(view.Map()), vtx, h)
  {
    blockundo := [];
    ok := CheckNoOverwrite(vtx, view);
    if !ok { return; }
    var nFees;
    ok, nFees, blockundo := ConnectTxs(p, vtx, view, h);
    if !ok { return; }
    ok := vtx[0].vout[0].nValue <= GetBlockValue(h, nFees);
  }

  /** The checks of ConnectBlock and its changes to the view's coins. */
  method CheckAndApply(p: Params, pindex: BlockIndex, view: CCoinsViewCache)
    returns (ok: bool, blockundo: BlockUndo)
    requires view.Valid() && pindex.Valid()
    modifies view.Repr
    ensures ok <==> CanConnect(p, old(view.Map()), old(view.Best()), pindex)
    ensures view.SameBelow() && view.Best() == old(view.Best())
    ensures ok ==> view.Map() == AfterConnect(p, old(view.Map()), pindex)
    ensures ok && !IsGenesis(p, pindex) ==>
      blockundo == BlockUndoOf(old(view.Map()), pindex.block.vtx, pindex.nHeight)
    ensures ok ==> view.hashBlock == view.Best()
  {
    hide WellFormedBlock, BlockLimits, LottoResultOk, NoOverwrite, AllInputsOk, SigOpsOk, FeesOf, ApplyTxs, BlockUndoOf;
    blockundo := [];
    var fGenesis := pindex.block.hash == p.hashGenesisBlock;
    ok := CheckBlock(pindex.block);
    if !ok { return; }
    HasCoinbase(pindex.block.vtx);
    if !fGenesis {
      if pindex.pprev.None? { return false, blockundo; }
      ok := CheckLottoResult(p, pindex.pprev.value, pindex.block);
      if !ok { return; }
    }
    var best := view.GetBestBlock();
    if PrevHash(pindex) != best { return false, blockundo; }
    if !fGenesis {
      ok, blockundo := ApplyBlock(p, pindex.block.vtx, view, pindex.nHeight);
    }
  }

  /** Check a block against the view and apply it; its undo data is stored unless some is stored already. */
  method ConnectBlock(p: Params, pindex: BlockIndex, view: CCoinsViewCache, undos: UndoStore, fJustCheck: bool)
    returns (ok: bool)
    requires view.Valid() && undos !in view.Repr && pindex.Valid()
    modifies view.Repr, undos
    ensures ok <==> CanConnect(p, old(view.Map()), old(view.Best()), pindex)
    ensures view.SameBelow()
    ensures ok ==> view.Map() == AfterConnect(p, old(view.Map()), pindex)
    ensures ok ==>
      view.Best() == (if fJustCheck && !IsGenesis(p, pindex) then old(view.Best()) else pindex.block.hash)
    ensures ok ==> view.hashBlock == view.Best()
    ensures undos.records ==
      if ok && !fJustCheck && !IsGenesis(p, pindex) && pindex !in old(undos.records)
      then old(undos.records)[pindex :=
        StoredBlockUndo(BlockUndoOf(old(view.Map()), pindex.block.vtx, pindex.nHeight))]
      else old(undos.records)
  {
    hide CanConnect, AfterConnect;
    var blockundo;
    ok, blockundo := CheckAndApply(p, pindex, view);
    var fGenesis := pindex.block.hash == p.hashGenesisBlock;
    if !ok || (fJustCheck && !fGenesis) { return; }
    if !fGenesis && pindex !in undos.records {
      undos.records := undos.records[pindex := StoredBlockUndo(blockundo)];
    }
    view.SetBestBlock(pindex.block.hash);
  }

  // ---- disconnecting ----

  /** Compare what the view holds for a transaction with the transaction, then clear it. */
  method RemoveTxOuts(tx: Tx, view: CCoinsViewCache, h: nat) returns (fClean: bool)
    requires view.Valid()
    modifies view.Repr
    ensures var r := RemoveOuts(old(view.Map()), tx, h); view.Map() == r.m && fClean == r.clean
    ensures view.SameBest() && view.SameBelow()
  {
    var found, value := view.GetCoins(tx.hash);
    fClean := MatchesTx(value, tx, h);
    if found {
      view.SetCoins(tx.hash, EMPTY_COINS);
    }
  }

  method MatchesTx(value: Coins, tx: Tx, h: nat) returns (same: bool)
    ensures var cleared := value.(vout := SpendableOuts(value.vout));
      same <==> SameCoins(if tx.nVersion < 0 then cleared.(nVersion := tx.nVersion) else cleared, FromTx(tx, h))
  {
    var outs := new CCoins(value);
    outs.ClearUnspendable();
    var outsBlock := new CCoins.OfTx(tx, h);
    if outsBlock.nVersion < 0 {
      outs.nVersion := outsBlock.nVersion;
    }
    same := outs.Equals(outsBlock);
  }

  /** Put one spent output back. */
  method RestoreTxInput(out: OutPoint, undo: TxInUndo, view: CCoinsViewCache) returns (fClean: bool)
    requires view.Valid()
    modifies view.Repr
    ensures var r := RestoreInput(old(view.Map()), out, undo); view.Map() == r.m && fClean == r.clean
    ensures view.SameBest() && view.SameBelow()
  {
    var found, coins := view.GetCoins(out.hash);
    ghost var m := view.Map();
    assert m == old(view.Map());
    fClean, coins := PutBack(coins, out, undo, m);
    view.SetCoins(out.hash, coins);
  }

  /** The entry of a spent output with the output back in its place. */
  method PutBack(found: Coins, out: OutPoint, undo: TxInUndo, ghost m: CoinMap) returns (fClean: bool, coins: Coins)
    requires found == if out.hash in m then m[out.hash] else EMPTY_COINS
    ensures var r := RestoreInput(m, out, undo); r.m == m[out.hash := coins] && fClean == r.clean
  {
    coins, fClean := found, true;
    var pruned := IsPrunedValue(coins);
    if undo.nHeight != 0 {
      if !pruned { fClean := false; }
      coins := Coins(undo.fCoinBase, [], undo.nHeight, undo.nVersion);
    } else {
      if pruned { fClean := false; }
    }
    if coins.IsAvailable(out.n) { fClean := false; }
    var vout := if |coins.vout| < out.n + 1 then Resized(coins.vout, out.n + 1) else coins.vout;
    assert vout == Resized(coins.vout, out.n + 1);
    coins := coins.(vout := vout[out.n := undo.txout]);
  }

  /** The inputs of a transaction, last to first. */
  method RestoreTxInputs(vin: seq<TxIn>, txundo: TxUndo, view: CCoinsViewCache) returns (fClean: bool)
    requires view.Valid() && |vin| == |txundo|
    modifies view.Repr
    ensures var r := RestoreInputs(old(view.Map()), vin, txundo, |vin|); view.Map() == r.m && fClean == r.clean
    ensures view.SameBest() && view.SameBelow()
  {
    hide RestoreInput;
    ghost var whole := RestoreInputs(view.Map(), vin, txundo, |vin|);
    fClean := true;
    var j := |vin|;
    while j > 0
      invariant 0 <= j <= |vin|
      invariant var rest := RestoreInputs(view.Map(), vin, txundo, j);
        whole.m == rest.m && whole.clean == (fClean && rest.clean)
      invariant view.SameBest() && view.SameBelow()
    {
      j := j - 1;
      var good := RestoreTxInput(vin[j].prevout, txundo[j], view);
      fClean := fClean && good;
    }
  }

  /** One turn of the loop of DisconnectBlock. */
  method UndoTransaction(tx: Tx, first: bool, txundo: TxUndo, view: CCoinsViewCache, h: nat)
    returns (ok: bool, fClean: bool)
    requires view.Valid()
    modifies view.Repr
    ensures var r := UndoTx(old(view.Map()), tx, first, txundo, h);
      view.Map() == r.m && ok == r.ok && (ok ==> fClean == r.clean)
    ensures view.SameBest() && view.SameBelow()
  {
    fClean := RemoveTxOuts(tx, view, h);
    if !first {
      if |txundo| != |tx.vin| { return false, fClean; }
      var good := RestoreTxInputs(tx.vin, txundo, view);
      fClean := fClean && good;
    }
    ok := true;
  }

  /** Undo the transactions last to first. */
  method UndoTransactions(vtx: seq<Tx>, undos: BlockUndo, view: CCoinsViewCache, h: nat)
    returns (ok: bool, fClean: bool)
    requires view.Valid() && |undos| + 1 == |vtx|
    modifies view.Repr
    ensures var r := UndoTxs(old(view.Map()), vtx, undos, |vtx|, h);
      view.Map() == r.m && ok == r.ok && (ok ==> fClean == r.clean)
    ensures view.SameBest() && view.SameBelow()
  {
    hide UndoTx;
    ghost var whole := UndoTxs(view.Map(), vtx, undos, |vtx|, h);
    fClean := true;
    var i := |vtx|;
    while i > 0
      invariant 0 <= i <= |vtx|
      invariant whole == UndoTxs(view.Map(), vtx, undos, i, h).(
        clean := fClean && UndoTxs(view.Map(), vtx, undos, i, h).clean)
      invariant view.SameBest() && view.SameBelow()
    {
      i := i - 1;
      var good;
      ok, good := UndoTransaction(vtx[i], i == 0, UndoAt(undos, i), view, h);
      if !ok { return; }
      fClean := fClean && good;
    }
    ok := true;
  }

  /** The shape test made before anything is undone. */
  predicate UndoFits(records: map<BlockIndex, BlockUndo>, pindex: BlockIndex) {
    pindex in records && |records[pindex]| + 1 == |pindex.block.vtx|
  }

  /** Take a block back with its stored undo data. fClean tells whether everything was as expected. */
  method DisconnectBlock(pindex: BlockIndex, view: CCoinsViewCache, undos: UndoStore)
    returns (ok: bool, fClean: bool)
    requires view.Valid() && pindex.pprev.Some? && undos !in view.Repr
    requires pindex.block.hash == view.Best()
    modifies view.Repr
    ensures view.SameBelow()
    ensures !UndoFits(undos.records, pindex) ==> !ok && view.Map() == old(view.Map())
    ensures UndoFits(undos.records, pindex) ==>
      var r := UndoTxs(old(view.Map()), pindex.block.vtx, undos.records[pindex], |pindex.block.vtx|, pindex.nHeight);
      view.Map() == r.m && ok == r.ok && (ok ==> fClean == r.clean)
    ensures ok ==> view.hashBlock == PrevHash(pindex)
  {
    if pindex !in undos.records { return false, false; }
    var blockUndo := undos.records[pindex];
    if |blockUndo| + 1 != |pindex.block.vtx| { return false, false; }
    ok, fClean := UndoTransactions(pindex.block.vtx, blockUndo, view, pindex.nHeight);
    if ok {
      view.SetBestBlock(pindex.pprev.value.block.hash);
    }
  }
}
