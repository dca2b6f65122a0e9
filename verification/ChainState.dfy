/** The chain state through any run of connecting and disconnecting tips (src/main.cpp: ConnectTip,
    DisconnectTip, ActivateBestChain). */
module ChainState {
  import opened Core
  import opened Coins
  import opened Utxo
  import opened CoinsView
  import opened Blocks
  import opened SigOps
  import opened BlockConnect
  import opened ChainIndex

  // ---- the database a branch determines ----

  /** Entries of the block tree: the genesis hash belongs to the root alone. */
  predicate InTree(p: Params, b: BlockIndex) {
    && b.Valid()
    && (b.block.hash == p.hashGenesisBlock <==> b.pprev.None?)
    && (b.pprev.Some? ==> InTree(p, b.pprev.value))
  }

  /** Replay of the whole branch up to and including an entry. */
  ghost function UtxoAfter(p: Params, b: BlockIndex): CoinMap
    decreases b, 1
  {
    AfterConnect(p, UtxoBefore(p, b), b)
  }

  /** Replay of the branch below an entry. */
  ghost function UtxoBefore(p: Params, b: BlockIndex): CoinMap
    decreases b, 0
  {
    match b.pprev
    case None => map[]
    case Some(q) => UtxoAfter(p, q)
  }

  /** Every block of the branch connects on what the ones below it leave. */
  ghost predicate ValidBranch(p: Params, b: BlockIndex) {
    && CanConnect(p, UtxoBefore(p, b), PrevHash(b), b)
    && (b.pprev.Some? ==> ValidBranch(p, b.pprev.value))
  }

  lemma {:induction false} BranchGood(p: Params, b: BlockIndex)
    requires InTree(p, b) && ValidBranch(p, b)
    ensures GoodMap(UtxoAfter(p, b)) && GoodMap(UtxoBefore(p, b))
  {
    if b.pprev.Some? {
      BranchGood(p, b.pprev.value);
      ApplyTxsGood(UtxoBefore(p, b), b.block.vtx, |b.block.vtx|, b.nHeight);
    }
  }

  /** Disconnecting the last block of a valid branch with the stored undo data of its own history is clean and
      leaves the replay of the branch below, however often coins and undo data were stored. */
  lemma DisconnectLast(p: Params, b: BlockIndex, m': CoinMap)
    requires InTree(p, b) && ValidBranch(p, b) && b.pprev.Some?
    requires Same(true, m', UtxoAfter(p, b))
    ensures var vtx := b.block.vtx;
      var r := UndoTxs(m', vtx, StoredBlockUndo(BlockUndoOf(UtxoBefore(p, b), vtx, b.nHeight)), |vtx|, b.nHeight);
      r.ok && r.clean && Same(true, r.m, UtxoBefore(p, b))
  {
    BranchGood(p, b);
    AcceptsConnectable(p, UtxoBefore(p, b), b);
    var undos := BlockUndoOf(UtxoBefore(p, b), b.block.vtx, b.nHeight);
    NearItself(undos);
    DisconnectRestores(true, UtxoBefore(p, b), m', b.block.vtx, StoredBlockUndo(undos), b.nHeight);
  }

  // ---- validity depends on the live coins only, and not on how versions are stored ----

  lemma {:induction false} SameValueIn(worn: bool, m1: CoinMap, m2: CoinMap, vin: seq<TxIn>, k: nat)
    requires k <= |vin| && Same(worn, m1, m2)
    ensures ValueIn(m1, vin, k) == ValueIn(m2, vin, k)
  {
    if k > 0 {
      SameValueIn(worn, m1, m2, vin, k - 1);
      SameAvail(worn, m1, m2, vin[k - 1].prevout);
    }
  }

  lemma SameInputsOk(worn: bool, p: Params, m1: CoinMap, m2: CoinMap, tx: Tx, h: nat)
    requires Same(worn, m1, m2)
    ensures InputsOk(p, m1, tx, h) <==> InputsOk(p, m2, tx, h)
    ensures FeeOf(m1, tx) == FeeOf(m2, tx)
  {
    SameValueIn(worn, m1, m2, tx.vin, |tx.vin|);
    forall i | 0 <= i < |tx.vin| ensures InputOk(p, m1, tx.vin, i, h) <==> InputOk(p, m2, tx.vin, i, h) {
      SameAvail(worn, m1, m2, tx.vin[i].prevout);
      SameValueIn(worn, m1, m2, tx.vin, i + 1);
    }
  }

  lemma {:induction false} SameFees(worn: bool, p: Params, m1: CoinMap, m2: CoinMap, vtx: seq<Tx>, k: nat, h: nat)
    requires k <= |vtx| && Same(worn, m1, m2)
    ensures FeesOf(m1, vtx, k, h) == FeesOf(m2, vtx, k, h)
  {
    hide ApplyTx, FeeOf, InputsOk;
    if k > 0 {
      SameFees(worn, p, m1, m2, vtx, k - 1, h);
      SameApply(worn, m1, m2, vtx, k - 1, h);
      SameInputsOk(worn, p, ApplyTxs(m1, vtx, k - 1, h), ApplyTxs(m2, vtx, k - 1, h), vtx[k - 1], h);
    }
  }

  lemma SameAllInputsOk(worn: bool, p: Params, m1: CoinMap, m2: CoinMap, vtx: seq<Tx>, h: nat)
    requires Same(worn, m1, m2)
    ensures AllInputsOk(p, m1, vtx, h) <==> AllInputsOk(p, m2, vtx, h)
  {
    forall i | 0 <= i < |vtx| ensures TxOkAt(p, m1, vtx, i, h) <==> TxOkAt(p, m2, vtx, i, h) {
      SameApply(worn, m1, m2, vtx, i, h);
      SameInputsOk(worn, p, ApplyTxs(m1, vtx, i, h), ApplyTxs(m2, vtx, i, h), vtx[i], h);
    }
  }

  /** Databases with the same unspent entries accept the same blocks and stay so after them. */
  lemma SameConnect(worn: bool, p: Params, m1: CoinMap, m2: CoinMap, best: Uint256, b: BlockIndex)
    requires Same(worn, m1, m2)
    ensures CanConnect(p, m1, best, b) <==> CanConnect(p, m2, best, b)
    ensures Same(worn, AfterConnect(p, m1, b), AfterConnect(p, m2, b))
  {
    hide AllInputsOk, SigOpsOf, FeesOf, ApplyTxs, WellFormedBlock, BlockLimits, LottoResultOk;
    var vtx, h := b.block.vtx, b.nHeight;
    SameAllInputsOk(worn, p, m1, m2, vtx, h);
    SameSigOps(worn, m1, m2, vtx, |vtx|, h);
    SameFees(worn, p, m1, m2, vtx, |vtx|, h);
    SameApply(worn, m1, m2, vtx, |vtx|, h);
  }

  lemma {:induction false} BranchAncestor(p: Params, t: BlockIndex, h: nat)
    requires InTree(p, t) && h <= t.nHeight
    ensures InTree(p, Ancestors(t)[h])
    ensures ValidBranch(p, t) ==> ValidBranch(p, Ancestors(t)[h])
    decreases t.nHeight
  {
    if h < t.nHeight {
      BranchAncestor(p, t.pprev.value, h);
    }
  }

  /** The branches start at the same genesis entry. */
  ghost predicate SameRoot(tip: Option<BlockIndex>, t: BlockIndex)
    requires t.Valid()
  {
    tip.Some? ==> tip.value.Valid() && Ancestors(tip.value)[0] == Ancestors(t)[0]
  }

  // ---- the state and its invariant ----

  /** Every block of the branch above genesis has an undo record. */
  ghost predicate HasRecords(b: BlockIndex, records: map<BlockIndex, BlockUndo>) {
    b.pprev.Some? ==> b in records && HasRecords(b.pprev.value, records)
  }

  /** A stored record holds what the block's own history gives, whichever chain was active when it was
      written. */
  ghost predicate RecordOk(p: Params, b: BlockIndex, undo: BlockUndo) {
    b.block.vtx != [] && undo == StoredBlockUndo(BlockUndoOf(UtxoBefore(p, b), b.block.vtx, b.nHeight))
  }

  ghost predicate RecordsOk(p: Params, records: map<BlockIndex, BlockUndo>) {
    forall b :: b in records ==> RecordOk(p, b, records[b])
  }

  /** The unspent coins and the best block are those of the tip's branch; a negative version may have become its
      stored form. */
  ghost predicate Coherent(p: Params, tip: Option<BlockIndex>, m: CoinMap, best: Uint256) {
    match tip
    case None => Live(m) == map[] && best == 0
    case Some(t) => InTree(p, t) && ValidBranch(p, t) && Same(true, m, UtxoAfter(p, t)) && best == t.block.hash
  }

  lemma {:induction false} HasRecordsMonotone(b: BlockIndex, r1: map<BlockIndex, BlockUndo>,
                                              r2: map<BlockIndex, BlockUndo>)
    requires HasRecords(b, r1) && r1.Keys <= r2.Keys
    ensures HasRecords(b, r2)
  {
    if b.pprev.Some? {
      HasRecordsMonotone(b.pprev.value, r1, r2);
    }
  }

  lemma CoherentBefore(p: Params, b: BlockIndex, m: CoinMap, best: Uint256)
    requires Coherent(p, b.pprev, m, best) && InTree(p, b)
    ensures Same(true, m, UtxoBefore(p, b)) && best == PrevHash(b)
  {
  }

  /** Connecting on a coherent state is decided by the branch alone and gives a coherent state; the undo
      data written is that of the branch. */
  lemma ConnectCoherent(p: Params, b: BlockIndex, m: CoinMap, best: Uint256)
    requires Coherent(p, b.pprev, m, best) && InTree(p, b)
    ensures CanConnect(p, m, best, b) <==> CanConnect(p, UtxoBefore(p, b), PrevHash(b), b)
    ensures CanConnect(p, m, best, b) ==> Coherent(p, Some(b), AfterConnect(p, m, b), b.block.hash)
    ensures b.block.vtx != [] ==> RecordOk(p, b, StoredBlockUndo(BlockUndoOf(m, b.block.vtx, b.nHeight)))
  {
    hide CanConnect, AfterConnect, BlockUndoOf, StoredBlockUndo, Same;
    CoherentBefore(p, b, m, best);
    SameConnect(true, p, m, UtxoBefore(p, b), best, b);
    if b.block.vtx != [] {
      SameBlockUndo(true, m, UtxoBefore(p, b), b.block.vtx, b.nHeight);
      NearStored(BlockUndoOf(m, b.block.vtx, b.nHeight), BlockUndoOf(UtxoBefore(p, b), b.block.vtx, b.nHeight));
    }
  }

  /** The record written at first connect is right, and a stored one is left alone. */
  lemma KeepRecords(p: Params, b: BlockIndex, m: CoinMap, best: Uint256, records: map<BlockIndex, BlockUndo>)
    requires Coherent(p, b.pprev, m, best) && InTree(p, b) && RecordsOk(p, records)
    requires b.pprev.Some? ==> HasRecords(b.pprev.value, records)
    ensures CanConnect(p, m, best, b) ==>
      var after := if !IsGenesis(p, b) && b !in records
        then records[b := StoredBlockUndo(BlockUndoOf(m, b.block.vtx, b.nHeight))] else records;
      RecordsOk(p, after) && HasRecords(b, after)
  {
    if CanConnect(p, m, best, b) {
      ConnectCoherent(p, b, m, best);
      if b.pprev.Some? && b !in records {
        HasRecordsMonotone(b.pprev.value, records,
                           records[b := StoredBlockUndo(BlockUndoOf(m, b.block.vtx, b.nHeight))]);
      }
    }
  }

  /** Disconnecting the tip of a coherent state is clean and coherent, because its record is the one of
      its own branch. */
  lemma DisconnectCoherent(p: Params, b: BlockIndex, m: CoinMap, best: Uint256,
                           records: map<BlockIndex, BlockUndo>)
    requires Coherent(p, Some(b), m, best) && b.pprev.Some?
    requires RecordsOk(p, records) && HasRecords(b, records)
    ensures UndoFits(records, b) && HasRecords(b.pprev.value, records)
    ensures var vtx := b.block.vtx;
      var r := UndoTxs(m, vtx, records[b], |vtx|, b.nHeight);
      r.ok && r.clean && Coherent(p, b.pprev, r.m, PrevHash(b))
  {
    hide UndoTxs, LottoResultOk, AllInputsOk, NoOverwrite;
    assert RecordOk(p, b, records[b]);
    DisconnectLast(p, b, m);
  }

  /** A write to disk in between keeps coherence. */
  lemma CoherentStored(p: Params, tip: Option<BlockIndex>, m1: CoinMap, m2: CoinMap, best: Uint256)
    requires Coherent(p, tip, m1, best) && Same(true, m2, m1)
    ensures Coherent(p, tip, m2, best)
  {
    if tip.Some? { SameTrans(true, m2, m1, UtxoAfter(p, tip.value)); }
  }

  /** The coins are exactly those of the branch as long as none of them has a negative version. */
  lemma CoherentExact(p: Params, t: BlockIndex, m: CoinMap, best: Uint256)
    requires Coherent(p, Some(t), m, best) && NoNegativeVersion(UtxoAfter(p, t))
    ensures Live(m) == Live(UtxoAfter(p, t))
  {
    SameUnworn(m, UtxoAfter(p, t));
  }

  /** One flush turns version -1 into 127. */
  lemma VersionLost()
    ensures var c := Coins(false, [TxOut(1, [])], 1, -1);
      Written(map[], map[7 := c], {7}) == map[7 := c.(nVersion := 127)]
  {
    var c := Coins(false, [TxOut(1, [])], 1, -1);
    assert !c.IsPruned() by { assert !c.vout[0].IsNull(); }
  }

  class ChainState {
    const p: Params
    const pcoinsTip: CCoinsViewCache
    const undos: UndoStore
    const chainActive: CChain

    ghost predicate Separate() {
      && pcoinsTip.Valid()
      && pcoinsTip.base == null
      && undos !in pcoinsTip.Repr
      && chainActive !in pcoinsTip.Repr
    }

    ghost predicate Valid()
      reads pcoinsTip.Repr, undos, chainActive
    {
      && Separate()
      && chainActive.Valid()
      && Coherent(p, chainActive.Tip(), pcoinsTip.Map(), pcoinsTip.Best())
      && RecordsOk(p, undos.records)
      && (chainActive.Tip().Some? ==> HasRecords(chainActive.Tip().value, undos.records))
    }

    constructor (p: Params)
      ensures Valid() && fresh(pcoinsTip.Repr) && fresh(undos) && fresh(chainActive)
      ensures this.p == p && chainActive.Tip() == None
    {
      this.p := p;
      var db := new CCoinsViewDB();
      var view := new CCoinsViewCache.OnDB(db);
      pcoinsTip := view;
      undos := new UndoStore();
      chainActive := new CChain();
    }

    /** WriteChainState: the tip's cache may be pushed to the database at any time. */
    method WriteChainState(fWrite: bool)
      requires Separate()
      modifies pcoinsTip.Repr
      ensures pcoinsTip.Best() == old(pcoinsTip.Best()) && Same(true, pcoinsTip.Map(), old(pcoinsTip.Map()))
      ensures Live(pcoinsTip.Map()) == Live(old(pcoinsTip.Map())) <==>
        !fWrite || NoNegativeVersion(old(pcoinsTip.cacheCoins))
    {
      SameOfLive(true, pcoinsTip.Map(), pcoinsTip.Map());
      if fWrite {
        pcoinsTip.Flush();
      }
    }

    /** ConnectBlock on a temporary view, which is pushed into the tip's view only on success. */
    method ConnectThroughView(pindexNew: BlockIndex) returns (ok: bool)
      requires Separate() && pindexNew.Valid()
      modifies pcoinsTip.Repr, undos
      ensures ok <==> CanConnect(p, old(pcoinsTip.Map()), old(pcoinsTip.Best()), pindexNew)
      ensures ok ==>
        && pcoinsTip.Map() == AfterConnect(p, old(pcoinsTip.Map()), pindexNew)
        && pcoinsTip.Best() == pindexNew.block.hash
      ensures !ok ==> pcoinsTip.Map() == old(pcoinsTip.Map()) && pcoinsTip.Best() == old(pcoinsTip.Best())
      ensures undos.records ==
        if ok && !IsGenesis(p, pindexNew) && pindexNew !in old(undos.records)
        then old(undos.records)[pindexNew :=
          StoredBlockUndo(BlockUndoOf(old(pcoinsTip.Map()), pindexNew.block.vtx, pindexNew.nHeight))]
        else old(undos.records)
    {
      hide CanConnect, AfterConnect, BlockUndoOf;
      var view := new CCoinsViewCache.OnCache(pcoinsTip);
      ok := ConnectBlock(p, pindexNew, view, undos, false);
      if !ok { return; }
      view.Flush();
    }

    /** Connect a child of the tip. Success depends on its branch only; on failure nothing has changed but
        the caches. */
    method ConnectTip(pindexNew: BlockIndex, fWrite: bool) returns (ok: bool)
      requires Valid() && InTree(p, pindexNew)
      requires pindexNew.pprev == chainActive.Tip()
      modifies pcoinsTip.Repr, undos, chainActive
      ensures Valid()
      ensures ok <==> CanConnect(p, UtxoBefore(p, pindexNew), PrevHash(pindexNew), pindexNew)
      ensures chainActive.Tip() == if ok then Some(pindexNew) else old(chainActive.Tip())
    {
      hide CanConnect, AfterConnect, BlockUndoOf, StoredBlockUndo, Same, Coherent, RecordsOk, RecordOk, UtxoBefore,
        HasRecords;
      ConnectCoherent(p, pindexNew, pcoinsTip.Map(), pcoinsTip.Best());
      KeepRecords(p, pindexNew, pcoinsTip.Map(), pcoinsTip.Best(), undos.records);
      ok := ConnectThroughView(pindexNew);
      if !ok { return; }
      ghost var m := pcoinsTip.Map();
      WriteChainState(fWrite);
      CoherentStored(p, Some(pindexNew), m, pcoinsTip.Map(), pcoinsTip.Best());
      var fork := chainActive.SetTip(Some(pindexNew));
    }

    /** DisconnectBlock on a temporary view, pushed into the tip's view when it went cleanly. */
    method DisconnectThroughView(pindexDelete: BlockIndex) returns (ok: bool)
      requires Separate() && pindexDelete.Valid() && pindexDelete.pprev.Some?
      requires pindexDelete.block.hash == pcoinsTip.Best()
      requires UndoFits(undos.records, pindexDelete)
      modifies pcoinsTip.Repr
      ensures var vtx := pindexDelete.block.vtx;
        var r := UndoTxs(old(pcoinsTip.Map()), vtx, undos.records[pindexDelete], |vtx|, pindexDelete.nHeight);
        && (ok <==> r.ok && r.clean)
        && (ok ==> pcoinsTip.Map() == r.m && pcoinsTip.Best() == PrevHash(pindexDelete))
        && (!ok ==> pcoinsTip.Map() == old(pcoinsTip.Map()) && pcoinsTip.Best() == old(pcoinsTip.Best()))
    {
      hide UndoTxs;
      var view := new CCoinsViewCache.OnCache(pcoinsTip);
      var fClean;
      ok, fClean := DisconnectBlock(pindexDelete, view, undos);
      ok := ok && fClean;
      if !ok { return; }
      view.Flush();
    }

    /** Disconnect the tip. On a state reached by any run this never fails. */
    method DisconnectTip(fWrite: bool) returns (ok: bool)
      requires Valid()
      requires chainActive.Tip().Some? && chainActive.Tip().value.pprev.Some?
      modifies pcoinsTip.Repr, chainActive
      ensures ok && Valid()
      ensures chainActive.Tip() == old(chainActive.Tip()).value.pprev
    {
      hide UndoTxs, ValidBranch, UtxoBefore, UtxoAfter, BlockUndoOf, StoredBlockUndo, Same, RecordsOk;
      var pindexDelete := chainActive.Tip().value;
      DisconnectCoherent(p, pindexDelete, pcoinsTip.Map(), pcoinsTip.Best(), undos.records);
      ok := DisconnectThroughView(pindexDelete);
      if !ok { return; }
      ghost var m := pcoinsTip.Map();
      WriteChainState(fWrite);
      CoherentStored(p, pindexDelete.pprev, m, pcoinsTip.Map(), pcoinsTip.Best());
      var fork := chainActive.SetTip(pindexDelete.pprev);
    }

    /** Disconnect blocks that are not on the given chain; every step may or may not write to disk. */
    method DisconnectToFork(chainMostWork: CChain)
      requires Valid() && chainMostWork != chainActive && chainMostWork !in pcoinsTip.Repr
      requires chainMostWork.Valid() && chainMostWork.Tip().Some?
      requires SameRoot(chainActive.Tip(), chainMostWork.Tip().value)
      modifies pcoinsTip.Repr, chainActive
      ensures Valid()
      ensures chainActive.Tip().Some? ==> IsAncestor(chainActive.Tip().value, chainMostWork.Tip().value)
    {
      hide UtxoAfter, UtxoBefore, ValidBranch, InTree, RecordsOk, HasRecords;
      ghost var t := chainMostWork.Tip().value;
      while chainActive.Tip().Some? && !chainMostWork.Contains(chainActive.Tip().value)
        invariant Valid() && chainMostWork.Valid() && chainMostWork.Tip() == Some(t)
        invariant SameRoot(chainActive.Tip(), t)
        decreases |chainActive.vChain|
      {
        ghost var tip := chainActive.Tip().value;
        AncestorParent(tip, tip.nHeight);
        chainMostWork.ContainsIsAncestor(tip);
        var fWrite: bool := *;
        var ok := DisconnectTip(fWrite);
      }
      if chainActive.Tip().Some? {
        chainMostWork.ContainsIsAncestor(chainActive.Tip().value);
      }
    }

    /** One pass towards a given most-work chain: disconnect to the fork, then connect upwards. It ends at
        that chain's tip exactly when every block of it is valid on its own branch. */
    method ActivateBestChain(chainMostWork: CChain) returns (ok: bool)
      requires Valid() && chainMostWork != chainActive && chainMostWork !in pcoinsTip.Repr
      requires chainMostWork.Valid()
      requires chainMostWork.Tip().Some? ==>
        InTree(p, chainMostWork.Tip().value) && SameRoot(chainActive.Tip(), chainMostWork.Tip().value)
      modifies pcoinsTip.Repr, undos, chainActive
      ensures Valid()
      ensures chainMostWork.Tip() == None ==> ok && chainActive.Tip() == old(chainActive.Tip())
      ensures chainMostWork.Tip().Some? ==> (ok <==> ValidBranch(p, chainMostWork.Tip().value))
      ensures chainMostWork.Tip().Some? && ok ==> chainActive.Tip() == chainMostWork.Tip()
      ensures chainMostWork.Tip().Some? && chainActive.Tip().Some? ==>
        IsAncestor(chainActive.Tip().value, chainMostWork.Tip().value)
    {
      hide UtxoAfter, UtxoBefore, ValidBranch, InTree, RecordsOk, HasRecords, CanConnect, Ancestors;
      if chainMostWork.Tip().None? { return true; }
      ghost var t := chainMostWork.Tip().value;
      DisconnectToFork(chainMostWork);
      while !chainActive.Contains(chainMostWork.Tip().value)
        invariant Valid() && chainMostWork.Valid() && chainMostWork.Tip() == Some(t)
        invariant chainActive.Tip().Some? ==> IsAncestor(chainActive.Tip().value, t)
        decreases t.nHeight + 1 - |chainActive.vChain|
      {
        var h := |chainActive.vChain|;
        PathHeights(t);
        AncestorParent(t, h);
        BranchAncestor(p, t, h);
        var pindexConnect := chainMostWork.At(h).value;
        var fWrite: bool := *;
        ok := ConnectTip(pindexConnect, fWrite);
        if !ok { return; }
      }
      chainActive.ContainsIsAncestor(t);
      ok := true;
    }
  }
}
