/** Applying a block to the coin database and taking it back, as functions on the database's map
    (src/main.cpp: UpdateCoins, ConnectBlock, DisconnectBlock). A function that takes a count k works on
    the first k elements of its sequence. */
module Utxo {
  import opened Core
  import opened Coins

  type CoinMap = map<Uint256, Coins>

  /** The unspent entries. Two maps with the same live part are the same database: a fully spent entry
      counts as an absent one. */
  ghost function Live(m: CoinMap): CoinMap {
    map id | id in m && !m[id].IsPruned() :: m[id]
  }

  /** An entry as it was or, if worn, as it may read back from storage. */
  predicate Near(worn: bool, c': Coins, c: Coins) {
    c' == c || (worn && c' == Stored(c))
  }

  /** m' holds the unspent entries of m; if worn, any of them may have been through storage. */
  ghost predicate Same(worn: bool, m': CoinMap, m: CoinMap) {
    Live(m').Keys == Live(m).Keys && forall id :: id in Live(m) ==> Near(worn, m'[id], m[id])
  }

  predicate NearUndo(worn: bool, undo': TxInUndo, undo: TxInUndo) {
    undo' == undo || (worn && undo' == StoredUndo(undo))
  }

  ghost predicate NearUndos(worn: bool, undo': TxUndo, undo: TxUndo) {
    |undo'| == |undo| && forall i :: 0 <= i < |undo| ==> NearUndo(worn, undo'[i], undo[i])
  }

  ghost predicate NearBlockUndo(worn: bool, undos': BlockUndo, undos: BlockUndo) {
    |undos'| == |undos| && forall i :: 0 <= i < |undos| ==> NearUndos(worn, undos'[i], undos[i])
  }

  /** Undo data after storage. */
  function StoredBlockUndo(undos: BlockUndo): BlockUndo {
    seq(|undos|, i requires 0 <= i < |undos| =>
      seq(|undos[i]|, j requires 0 <= j < |undos[i]| => StoredUndo(undos[i][j])))
  }

  /** Entries after storage. */
  ghost function StoredMap(m: CoinMap): CoinMap {
    map id | id in m :: Stored(m[id])
  }

  ghost predicate NoNegativeVersion(m: CoinMap) {
    forall id :: id in Live(m) ==> m[id].nVersion >= 0
  }

  /** Storing a batch over a database keeps its unspent entries but for negative versions, which it loses. */
  lemma StoringBatch(m: CoinMap, batch: CoinMap)
    ensures Same(true, m + StoredMap(batch), m + batch)
    ensures Live(m + StoredMap(batch)) == Live(m + batch) <==> NoNegativeVersion(batch)
  {
    var stored, plain := m + StoredMap(batch), m + batch;
    forall id
      ensures id in Live(stored) <==> id in Live(plain)
      ensures id in Live(plain) ==> stored[id] == if id in batch then Stored(plain[id]) else plain[id]
    {
      assert id in batch ==> (Stored(batch[id]).IsPruned() <==> batch[id].IsPruned());
    }
    if Live(stored) == Live(plain) {
      forall id | id in Live(batch) ensures batch[id].nVersion >= 0 {
        assert id in Live(plain) && Live(stored)[id] == Live(plain)[id];
      }
    }
  }

  lemma SameExact(m': CoinMap, m: CoinMap)
    ensures Same(false, m', m) <==> Live(m') == Live(m)
  {
    if Live(m') == Live(m) {
      forall id | id in Live(m) ensures m'[id] == m[id] { assert Live(m')[id] == Live(m)[id]; }
    }
  }

  lemma SameUnworn(m': CoinMap, m: CoinMap)
    requires Same(true, m', m) && NoNegativeVersion(m)
    ensures Live(m') == Live(m)
  {
    forall id | id in Live(m) ensures m'[id] == m[id] { assert Near(true, m'[id], m[id]); }
  }

  lemma SameOfLive(worn: bool, m': CoinMap, m: CoinMap)
    requires Live(m') == Live(m)
    ensures Same(worn, m', m)
  {
    SameExact(m', m);
  }

  lemma SameTrans(worn: bool, m1: CoinMap, m2: CoinMap, m3: CoinMap)
    requires Same(worn, m1, m2) && Same(worn, m2, m3)
    ensures Same(worn, m1, m3)
  {
    forall id | id in Live(m3) ensures Near(worn, m1[id], m3[id]) {
      assert id in Live(m2) && Near(worn, m1[id], m2[id]) && Near(worn, m2[id], m3[id]);
    }
  }

  lemma StoredBatch(m': CoinMap, m: CoinMap, batch: CoinMap)
    requires Live(m') == Live(m + StoredMap(batch))
    ensures Same(true, m', m + batch)
    ensures Live(m') == Live(m + batch) <==> NoNegativeVersion(batch)
  {
    hide Live, Same, StoredMap, NoNegativeVersion;
    StoringBatch(m, batch);
    SameOfLive(true, m', m + StoredMap(batch));
    SameTrans(true, m', m + StoredMap(batch), m + batch);
  }

  ghost predicate GoodMap(m: CoinMap) {
    forall id :: id in Live(m) ==> GoodCoins(m[id])
  }

  predicate Avail(m: CoinMap, o: OutPoint) {
    o.hash in m && m[o.hash].IsAvailable(o.n)
  }

  ghost predicate HaveInputs(m: CoinMap, vin: seq<TxIn>) {
    forall i :: 0 <= i < |vin| ==> Avail(m, vin[i].prevout)
  }

  /** What the inputs are worth; an output that is not there counts for nothing. */
  function ValueOf(m: CoinMap, o: OutPoint): int {
    if Avail(m, o) then m[o.hash].vout[o.n].nValue else 0
  }

  function ValueIn(m: CoinMap, vin: seq<TxIn>, k: nat): int
    requires k <= |vin|
  {
    if k == 0 then 0 else ValueIn(m, vin, k - 1) + ValueOf(m, vin[k - 1].prevout)
  }

  function Inputs(tx: Tx): seq<TxIn> {
    if tx.IsCoinBase() then [] else tx.vin
  }

  // ---- applying ----

  function SpendInput(m: CoinMap, o: OutPoint): CoinMap {
    if o.hash in m then m[o.hash := SpendAt(m[o.hash], o.n)] else m
  }

  function SpendInputs(m: CoinMap, vin: seq<TxIn>, k: nat): CoinMap
    requires k <= |vin|
  {
    if k == 0 then m else SpendInput(SpendInputs(m, vin, k - 1), vin[k - 1].prevout)
  }

  function ApplyTx(m: CoinMap, tx: Tx, h: nat): CoinMap {
    SpendInputs(m, Inputs(tx), |Inputs(tx)|)[tx.hash := FromTx(tx, h)]
  }

  function ApplyTxs(m: CoinMap, vtx: seq<Tx>, k: nat, h: nat): CoinMap
    requires k <= |vtx|
  {
    if k == 0 then m else ApplyTx(ApplyTxs(m, vtx, k - 1, h), vtx[k - 1], h)
  }

  /** The undo record of one spend. */
  function UndoFor(m: CoinMap, o: OutPoint): TxInUndo {
    if Avail(m, o) then UndoOfSpend(m[o.hash], o.n) else TxInUndo(NULL_TXOUT, false, 0, 0)
  }

  /** Each input's record, taken when the ones before it are already spent. */
  function UndosOf(m: CoinMap, vin: seq<TxIn>): TxUndo {
    seq(|vin|, i requires 0 <= i < |vin| => UndoFor(SpendInputs(m, vin, i), vin[i].prevout))
  }

  /** One record for every transaction but the first. */
  function BlockUndoOf(m: CoinMap, vtx: seq<Tx>, h: nat): BlockUndo
    requires vtx != []
  {
    seq(|vtx| - 1, i requires 0 <= i < |vtx| - 1 => UndosOf(ApplyTxs(m, vtx, i + 1, h), vtx[i + 1].vin))
  }

  // ---- taking back ----

  /** A map, whether everything found in it was as expected, and whether the undo data had the right shape. */
  datatype Undone = Undone(m: CoinMap, clean: bool, ok: bool)

  /** An entry with one output put back, and whether it was as expected. */
  ghost function RestoreOut(found: Coins, n: nat, undo: TxInUndo): (Coins, bool) {
    var coins := if undo.nHeight != 0 then Coins(undo.fCoinBase, [], undo.nHeight, undo.nVersion) else found;
    (coins.(vout := Resized(coins.vout, n + 1)[n := undo.txout]),
     (undo.nHeight != 0 <==> found.IsPruned()) && !coins.IsAvailable(n))
  }

  ghost function RestoreInput(m: CoinMap, o: OutPoint, undo: TxInUndo): Undone {
    var (coins, clean) := RestoreOut(if o.hash in m then m[o.hash] else EMPTY_COINS, o.n, undo);
    Undone(m[o.hash := coins], clean, true)
  }

  /** The first k inputs, last to first. */
  ghost function RestoreInputs(m: CoinMap, vin: seq<TxIn>, undo: TxUndo, k: nat): (r: Undone)
    requires k <= |vin| == |undo|
    ensures r.ok
    decreases k
  {
    if k == 0 then Undone(m, true, true)
    else
      var last := RestoreInput(m, vin[k - 1].prevout, undo[k - 1]);
      var rest := RestoreInputs(last.m, vin, undo, k - 1);
      rest.(clean := last.clean && rest.clean)
  }

  /** Clear the outputs of a transaction, comparing them first with the transaction itself. */
  ghost function RemoveOuts(m: CoinMap, tx: Tx, h: nat): Undone {
    var outs := if tx.hash in m then m[tx.hash] else EMPTY_COINS;
    var cleared := outs.(vout := SpendableOuts(outs.vout));
    var compared := if tx.nVersion < 0 then cleared.(nVersion := tx.nVersion) else cleared;
    Undone(if tx.hash in m then m[tx.hash := EMPTY_COINS] else m, SameCoins(compared, FromTx(tx, h)), true)
  }

  /** One transaction: clear its outputs and, unless it is the block's first, restore its inputs. */
  ghost function UndoTx(m: CoinMap, tx: Tx, first: bool, undo: TxUndo, h: nat): Undone {
    var removed := RemoveOuts(m, tx, h);
    if first then removed
    else if |undo| != |tx.vin| then removed.(ok := false)
    else
      var restored := RestoreInputs(removed.m, tx.vin, undo, |tx.vin|);
      restored.(clean := removed.clean && restored.clean)
  }

  /** The undo record of the transaction at position i; the first transaction has none. */
  function UndoAt(undos: BlockUndo, i: nat): TxUndo
    requires i <= |undos|
  {
    if i == 0 then [] else undos[i - 1]
  }

  /** The first k transactions of a block, last to first; stops where a transaction and its undo record
      disagree in size. */
  ghost function UndoTxs(m: CoinMap, vtx: seq<Tx>, undos: BlockUndo, k: nat, h: nat): Undone
    requires k <= |vtx| == |undos| + 1
    decreases k
  {
    if k == 0 then Undone(m, true, true)
    else
      var one := UndoTx(m, vtx[k - 1], k == 1, UndoAt(undos, k - 1), h);
      if !one.ok then one
      else
        var rest := UndoTxs(one.m, vtx, undos, k - 1, h);
        rest.(clean := one.clean && rest.clean)
  }

  // ---- what a valid block guarantees ----

  ghost predicate CoinbaseFirst(vtx: seq<Tx>) {
    vtx != [] && vtx[0].IsCoinBase() && forall i :: 1 <= i < |vtx| ==> !vtx[i].IsCoinBase()
  }

  ghost predicate AllWellFormed(vtx: seq<Tx>) {
    forall i :: 0 <= i < |vtx| ==> WellFormedTx(vtx[i])
  }

  /** First transaction a coinbase, no other one, each well formed, txids distinct. */
  ghost predicate WellFormedBlock(vtx: seq<Tx>) {
    && CoinbaseFirst(vtx)
    && AllWellFormed(vtx)
    && (forall i, j :: 0 <= i < j < |vtx| ==> vtx[i].hash != vtx[j].hash)
  }

  /** BIP 30: no transaction of the block overwrites a live entry. */
  ghost predicate NoOverwrite(m: CoinMap, vtx: seq<Tx>) {
    forall i :: 0 <= i < |vtx| ==> vtx[i].hash !in Live(m)
  }

  /** The inputs of the transaction at position i are there once the ones before it are applied. */
  ghost predicate InputsAtTurn(m: CoinMap, vtx: seq<Tx>, i: nat, h: nat)
    requires i < |vtx|
  {
    HaveInputs(ApplyTxs(m, vtx, i, h), Inputs(vtx[i]))
  }

  ghost predicate InputsInTurn(m: CoinMap, vtx: seq<Tx>, h: nat) {
    forall i :: 0 <= i < |vtx| ==> InputsAtTurn(m, vtx, i, h)
  }

  ghost predicate Connectable(m: CoinMap, vtx: seq<Tx>, h: nat) {
    && h > 0
    && WellFormedBlock(vtx)
    && NoOverwrite(m, vtx)
    && InputsInTurn(m, vtx, h)
  }

  // ---- one input ----

  lemma SpendInputKeepsOthers(m: CoinMap, o: OutPoint, p: OutPoint)
    requires o != p
    ensures Avail(SpendInput(m, o), p) <==> Avail(m, p)
    ensures Avail(m, p) ==> SpendInput(m, o)[p.hash].vout[p.n] == m[p.hash].vout[p.n]
  {
    if o.hash in m && p.hash == o.hash {
      SpendKeepsOthers(m[o.hash], o.n, p.n);
    }
  }

  lemma SpendInputGood(m: CoinMap, o: OutPoint)
    requires GoodMap(m)
    ensures GoodMap(SpendInput(m, o))
    ensures Live(SpendInput(m, o)).Keys <= Live(m).Keys
  {
    if o.hash in m {
      var c := m[o.hash];
      if c.IsAvailable(o.n) {
        SpendKeepsGood(c, o.n);
        assert !c.IsPruned();
        TrimmedPruned(SpendAt(c, o.n));
      }
    }
  }

  lemma RestoreUndoesSpendOut(worn: bool, c: Coins, n: nat, found: Coins, undo: TxInUndo)
    requires GoodCoins(c) && c.IsAvailable(n) && NearUndo(worn, undo, UndoOfSpend(c, n))
    requires if SpendAt(c, n).IsPruned() then found.IsPruned() else Near(worn, found, SpendAt(c, n))
    ensures var (coins, clean) := RestoreOut(found, n, undo); clean && Near(worn, coins, c)
  {
    RestoreAfterSpend(c, n);
  }

  lemma NearPruned(worn: bool, c': Coins, c: Coins)
    requires Near(worn, c', c)
    ensures c'.IsPruned() <==> c.IsPruned()
  {
  }

  lemma LiveInside(m: CoinMap)
    ensures Live(m).Keys <= m.Keys
  {
  }

  lemma SameBut(worn: bool, m': CoinMap, m: CoinMap, id: Uint256, c': Coins, c: Coins, was: Coins)
    requires Same(worn, m', m[id := c]) && Near(worn, c', was)
    ensures Same(worn, m'[id := c'], m[id := was])
  {
    hide Near, Live;
    NearPruned(worn, c', was);
    LiveOfUpdate(m, id, c);
    LiveOfUpdate(m, id, was);
    LiveOfUpdate(m', id, c');
    var a, b := m'[id := c'], m[id := was];
    LiveInside(a);
    LiveInside(b);
    forall k | k in Live(b) && k != id ensures k in a && Near(worn, a[k], b[k]) {
      assert k in Live(m[id := c]);
    }
  }

  /** Restoring one input undoes its spend on any map with the same live part. */
  lemma RestoreUndoesSpend(worn: bool, m: CoinMap, m': CoinMap, o: OutPoint, undo: TxInUndo)
    requires GoodMap(m) && Avail(m, o)
    requires Same(worn, m', SpendInput(m, o)) && NearUndo(worn, undo, UndoFor(m, o))
    ensures var r := RestoreInput(m', o, undo); r.clean && Same(worn, r.m, m)
  {
    var c := m[o.hash];
    assert !c.vout[o.n].IsNull();
    assert o.hash in Live(m);
    var left := SpendAt(c, o.n);
    var found := if o.hash in m' then m'[o.hash] else EMPTY_COINS;
    hide SpendAt, RestoreOut, UndoOfSpend, GoodCoins;
    if left.IsPruned() {
      assert o.hash !in Live(SpendInput(m, o));
    } else {
      assert o.hash in Live(SpendInput(m, o));
      assert Near(worn, m'[o.hash], left);
    }
    RestoreUndoesSpendOut(worn, c, o.n, found, undo);
    SameBut(worn, m', m, o.hash, RestoreOut(found, o.n, undo).0, left, c);
    assert m[o.hash := c] == m;
  }

  // ---- all inputs of a transaction ----

  /** Input k is there once the ones before it are spent. */
  ghost predicate SpendableAt(m: CoinMap, vin: seq<TxIn>, k: nat)
    requires k < |vin|
  {
    Avail(SpendInputs(m, vin, k), vin[k].prevout)
  }

  ghost predicate SpendableInTurn(m: CoinMap, vin: seq<TxIn>) {
    forall k :: 0 <= k < |vin| ==> SpendableAt(m, vin, k)
  }

  lemma {:induction false} SpendInputsKeepsOthers(m: CoinMap, vin: seq<TxIn>, k: nat, p: OutPoint)
    requires k <= |vin| && forall i :: 0 <= i < k ==> vin[i].prevout != p
    ensures Avail(SpendInputs(m, vin, k), p) <==> Avail(m, p)
    ensures Avail(m, p) ==> SpendInputs(m, vin, k)[p.hash].vout[p.n] == m[p.hash].vout[p.n]
  {
    if k > 0 {
      SpendInputsKeepsOthers(m, vin, k - 1, p);
      SpendInputKeepsOthers(SpendInputs(m, vin, k - 1), vin[k - 1].prevout, p);
    }
  }

  /** Inputs available together and pairwise different can be spent one after the other, even when
      several of them name the same parent. */
  lemma HaveInputsSpendable(m: CoinMap, vin: seq<TxIn>)
    requires HaveInputs(m, vin) && DistinctPrevouts(vin)
    ensures SpendableInTurn(m, vin)
  {
    forall k | 0 <= k < |vin| ensures SpendableAt(m, vin, k) {
      SpendInputsKeepsOthers(m, vin, k, vin[k].prevout);
    }
  }

  lemma {:induction false} SpendInputsGood(m: CoinMap, vin: seq<TxIn>, k: nat)
    requires k <= |vin| && GoodMap(m)
    ensures GoodMap(SpendInputs(m, vin, k))
    ensures Live(SpendInputs(m, vin, k)).Keys <= Live(m).Keys
  {
    if k > 0 {
      SpendInputsGood(m, vin, k - 1);
      SpendInputGood(SpendInputs(m, vin, k - 1), vin[k - 1].prevout);
    }
  }

  /** Record i is the one of input i. */
  ghost predicate RecordFits(worn: bool, m: CoinMap, vin: seq<TxIn>, undo: TxUndo, i: nat)
    requires i < |vin| == |undo|
  {
    NearUndo(worn, undo[i], UndoFor(SpendInputs(m, vin, i), vin[i].prevout))
  }

  lemma {:induction false} RestoreUndoesFirst(worn: bool, m: CoinMap, m': CoinMap, vin: seq<TxIn>, undo: TxUndo,
                                              k: nat)
    requires k <= |vin| == |undo| && GoodMap(m) && SpendableInTurn(m, vin)
    requires forall i :: 0 <= i < k ==> RecordFits(worn, m, vin, undo, i)
    requires Same(worn, m', SpendInputs(m, vin, k))
    ensures var r := RestoreInputs(m', vin, undo, k); r.clean && Same(worn, r.m, m)
    decreases k
  {
    hide GoodMap, Same, RestoreInput, SpendInput, Avail, UndoFor, NearUndo;
    if k > 0 {
      SpendInputsGood(m, vin, k - 1);
      assert SpendableAt(m, vin, k - 1) && RecordFits(worn, m, vin, undo, k - 1);
      RestoreUndoesSpend(worn, SpendInputs(m, vin, k - 1), m', vin[k - 1].prevout, undo[k - 1]);
      RestoreUndoesFirst(worn, m, RestoreInput(m', vin[k - 1].prevout, undo[k - 1]).m, vin, undo, k - 1);
    }
  }

  /** Restoring all inputs, last to first, undoes spending them first to last. */
  lemma RestoreUndoesSpends(worn: bool, m: CoinMap, m': CoinMap, vin: seq<TxIn>, undo: TxUndo)
    requires GoodMap(m) && SpendableInTurn(m, vin)
    requires Same(worn, m', SpendInputs(m, vin, |vin|)) && NearUndos(worn, undo, UndosOf(m, vin))
    ensures var r := RestoreInputs(m', vin, undo, |vin|); r.clean && Same(worn, r.m, m)
  {
    forall i | 0 <= i < |vin| ensures RecordFits(worn, m, vin, undo, i) {
      assert NearUndo(worn, undo[i], UndosOf(m, vin)[i]);
    }
    RestoreUndoesFirst(worn, m, m', vin, undo, |vin|);
  }

  // ---- one transaction ----

  lemma RemoveUndoesAdd(worn: bool, m: CoinMap, m': CoinMap, tx: Tx, h: nat)
    requires tx.hash !in Live(m)
    requires Same(worn, m', m[tx.hash := FromTx(tx, h)])
    ensures var r := RemoveOuts(m', tx, h); r.clean && Same(worn, r.m, m)
  {
    var added := m[tx.hash := FromTx(tx, h)];
    var r := RemoveOuts(m', tx, h);
    SpendableOutsIdempotent(tx.vout);
    if FromTx(tx, h).IsPruned() {
      assert tx.hash !in Live(m');
      if tx.hash in m' {
        assert m'[tx.hash].IsPruned();
        PrunedStaysPruned(m'[tx.hash].vout);
      }
    } else {
      assert tx.hash in Live(added) && tx.hash in Live(m');
      assert Near(worn, m'[tx.hash], FromTx(tx, h));
    }
    forall id | id != tx.hash
      ensures id in Live(r.m) <==> id in Live(m)
      ensures id in Live(m) ==> Near(worn, r.m[id], m[id])
    {
      assert id in Live(added) <==> id in Live(m);
      assert id in Live(r.m) <==> id in Live(m');
    }
    assert tx.hash !in Live(r.m);
  }

  lemma PrunedStaysPruned(vout: seq<TxOut>)
    requires forall i :: 0 <= i < |vout| ==> vout[i].IsNull()
    ensures forall i :: 0 <= i < |SpendableOuts(vout)| ==> SpendableOuts(vout)[i].IsNull()
  {
  }

  lemma ApplyTxGood(m: CoinMap, tx: Tx, h: nat)
    requires h > 0 && GoodMap(m) && WellFormedTx(tx)
    ensures GoodMap(ApplyTx(m, tx, h))
    ensures Live(ApplyTx(m, tx, h)).Keys <= Live(m).Keys + {tx.hash}
  {
    SpendInputsGood(m, Inputs(tx), |Inputs(tx)|);
    FromTxGood(tx, h);
    TrimmedPruned(FromTx(tx, h));
  }

  // ---- a block ----

  ghost function Txids(vtx: seq<Tx>, k: nat): set<Uint256>
    requires k <= |vtx|
  {
    set i | 0 <= i < k :: vtx[i].hash
  }

  lemma TxidsStep(vtx: seq<Tx>, k: nat)
    requires k < |vtx|
    ensures Txids(vtx, k + 1) == Txids(vtx, k) + {vtx[k].hash}
  {
  }

  lemma {:induction false} ApplyTxsGood(m: CoinMap, vtx: seq<Tx>, k: nat, h: nat)
    requires h > 0 && k <= |vtx| && GoodMap(m) && AllWellFormed(vtx)
    ensures GoodMap(ApplyTxs(m, vtx, k, h))
    ensures Live(ApplyTxs(m, vtx, k, h)).Keys <= Live(m).Keys + Txids(vtx, k)
  {
    hide ApplyTx, GoodMap, Live, Txids, WellFormedTx;
    if k > 0 {
      ApplyTxsGood(m, vtx, k - 1, h);
      var before, tx := ApplyTxs(m, vtx, k - 1, h), vtx[k - 1];
      assert WellFormedTx(tx);
      ApplyTxGood(before, tx, h);
      TxidsStep(vtx, k - 1);
    }
  }

  /** A transaction that can be applied to before: its inputs can be spent in turn and it overwrites
      nothing live. */
  ghost predicate Ready(before: CoinMap, tx: Tx) {
    && GoodMap(before)
    && SpendableInTurn(before, Inputs(tx))
    && tx.hash !in Live(SpendInputs(before, Inputs(tx), |Inputs(tx)|))
  }

  ghost predicate ReadyAt(m: CoinMap, vtx: seq<Tx>, i: nat, h: nat)
    requires i < |vtx|
  {
    Ready(ApplyTxs(m, vtx, i, h), vtx[i]) && (i == 0 <==> vtx[i].IsCoinBase())
  }

  /** Every transaction of a connectable block is ready when its turn comes. */
  lemma TxReady(m: CoinMap, vtx: seq<Tx>, i: nat, h: nat)
    requires GoodMap(m) && Connectable(m, vtx, h) && i < |vtx|
    ensures ReadyAt(m, vtx, i, h)
  {
    var before := ApplyTxs(m, vtx, i, h);
    var vin := Inputs(vtx[i]);
    ApplyTxsGood(m, vtx, i, h);
    assert InputsAtTurn(m, vtx, i, h);
    assert WellFormedTx(vtx[i]);
    HaveInputsSpendable(before, vin);
    SpendInputsGood(before, vin, |vin|);
  }

  /** Undoing one transaction with its record gives back the live coins there were before it. */
  lemma UndoOneTx(worn: bool, before: CoinMap, m': CoinMap, tx: Tx, undo: TxUndo, h: nat)
    requires Ready(before, tx)
    requires Same(worn, m', ApplyTx(before, tx, h))
    requires !tx.IsCoinBase() ==> NearUndos(worn, undo, UndosOf(before, tx.vin))
    ensures var r := UndoTx(m', tx, tx.IsCoinBase(), undo, h);
      r.ok && r.clean && Same(worn, r.m, before)
  {
    RemoveUndoesAdd(worn, SpendInputs(before, Inputs(tx), |Inputs(tx)|), m', tx, h);
    if !tx.IsCoinBase() {
      RestoreUndoesSpends(worn, before, RemoveOuts(m', tx, h).m, tx.vin, undo);
    }
  }

  /** The undo data holds the records of the transaction at position i. */
  ghost predicate RecordsFit(worn: bool, m: CoinMap, vtx: seq<Tx>, undos: BlockUndo, i: nat, h: nat)
    requires i < |vtx| == |undos| + 1
  {
    i == 0 || NearUndos(worn, UndoAt(undos, i), UndosOf(ApplyTxs(m, vtx, i, h), vtx[i].vin))
  }

  lemma UndoStep(worn: bool, m: CoinMap, m': CoinMap, vtx: seq<Tx>, undos: BlockUndo, i: nat, h: nat)
    requires i < |vtx| == |undos| + 1 && ReadyAt(m, vtx, i, h) && RecordsFit(worn, m, vtx, undos, i, h)
    requires Same(worn, m', ApplyTxs(m, vtx, i + 1, h))
    ensures var r := UndoTx(m', vtx[i], i == 0, UndoAt(undos, i), h);
      r.ok && r.clean && Same(worn, r.m, ApplyTxs(m, vtx, i, h))
  {
    UndoOneTx(worn, ApplyTxs(m, vtx, i, h), m', vtx[i], UndoAt(undos, i), h);
  }

  lemma {:induction false} UndoPrefix(worn: bool, m: CoinMap, m': CoinMap, vtx: seq<Tx>, undos: BlockUndo, k: nat,
                                      h: nat)
    requires k <= |vtx| == |undos| + 1
    requires forall i :: 0 <= i < k ==> ReadyAt(m, vtx, i, h) && RecordsFit(worn, m, vtx, undos, i, h)
    requires Same(worn, m', ApplyTxs(m, vtx, k, h))
    ensures var r := UndoTxs(m', vtx, undos, k, h); r.ok && r.clean && Same(worn, r.m, m)
    decreases k
  {
    hide ReadyAt, RecordsFit, UndoTx, UndoAt, Same, ApplyTxs;
    if k == 0 {
      NoneApplied(m, vtx, h);
    } else {
      UndoStep(worn, m, m', vtx, undos, k - 1, h);
      UndoPrefix(worn, m, UndoTx(m', vtx[k - 1], k == 1, UndoAt(undos, k - 1), h).m, vtx, undos, k - 1, h);
    }
  }

  lemma NoneApplied(m: CoinMap, vtx: seq<Tx>, h: nat)
    ensures ApplyTxs(m, vtx, 0, h) == m
  {
  }

  lemma AllRecordsFit(worn: bool, m: CoinMap, vtx: seq<Tx>, undos: BlockUndo, h: nat)
    requires vtx != [] && NearBlockUndo(worn, undos, BlockUndoOf(m, vtx, h))
    ensures forall i :: 0 <= i < |vtx| ==> RecordsFit(worn, m, vtx, undos, i, h)
  {
    forall i | 0 < i < |vtx| ensures RecordsFit(worn, m, vtx, undos, i, h) {
      assert NearUndos(worn, undos[i - 1], BlockUndoOf(m, vtx, h)[i - 1]);
    }
  }

  /** Disconnecting with the recorded undo data is clean and gives back the coins there were before the block,
      starting from any database that holds those after it; undo data and coins may have been through storage. */
  lemma DisconnectRestores(worn: bool, m: CoinMap, m': CoinMap, vtx: seq<Tx>, undos: BlockUndo, h: nat)
    requires GoodMap(m) && Connectable(m, vtx, h)
    requires Same(worn, m', ApplyTxs(m, vtx, |vtx|, h)) && NearBlockUndo(worn, undos, BlockUndoOf(m, vtx, h))
    ensures var r := UndoTxs(m', vtx, undos, |vtx|, h); r.ok && r.clean && Same(worn, r.m, m)
  {
    forall i | 0 <= i < |vtx| ensures ReadyAt(m, vtx, i, h) {
      TxReady(m, vtx, i, h);
    }
    AllRecordsFit(worn, m, vtx, undos, h);
    UndoPrefix(worn, m, m', vtx, undos, |vtx|, h);
  }

  lemma NearItself(undos: BlockUndo)
    ensures NearBlockUndo(false, undos, undos) && NearBlockUndo(true, StoredBlockUndo(undos), undos)
  {
    forall i | 0 <= i < |undos|
      ensures NearUndos(false, undos[i], undos[i]) && NearUndos(true, StoredBlockUndo(undos)[i], undos[i])
    {
      forall j | 0 <= j < |undos[i]| ensures NearUndo(true, StoredBlockUndo(undos)[i][j], undos[i][j]) {}
    }
  }

  /** Away from storage the coins come back exactly. */
  lemma DisconnectUndoesConnect(m: CoinMap, m': CoinMap, vtx: seq<Tx>, h: nat)
    requires GoodMap(m) && Connectable(m, vtx, h)
    requires Live(m') == Live(ApplyTxs(m, vtx, |vtx|, h))
    ensures var r := UndoTxs(m', vtx, BlockUndoOf(m, vtx, h), |vtx|, h);
      r.ok && r.clean && Live(r.m) == Live(m)
  {
    NearItself(BlockUndoOf(m, vtx, h));
    SameExact(m', ApplyTxs(m, vtx, |vtx|, h));
    DisconnectRestores(false, m, m', vtx, BlockUndoOf(m, vtx, h), h);
    SameExact(UndoTxs(m', vtx, BlockUndoOf(m, vtx, h), |vtx|, h).m, m);
  }

  // ---- only the unspent entries matter, and not how their versions are stored ----

  lemma SameAvail(worn: bool, m1: CoinMap, m2: CoinMap, o: OutPoint)
    requires Same(worn, m1, m2)
    ensures Avail(m1, o) <==> Avail(m2, o)
    ensures Avail(m1, o) ==> Near(worn, m1[o.hash], m2[o.hash])
  {
    if Avail(m1, o) {
      assert !m1[o.hash].vout[o.n].IsNull();
      assert o.hash in Live(m1) && Near(worn, m1[o.hash], m2[o.hash]);
    }
    if Avail(m2, o) {
      assert !m2[o.hash].vout[o.n].IsNull();
      assert o.hash in Live(m2) && Near(worn, m1[o.hash], m2[o.hash]);
    }
  }

  lemma LiveOfUpdate(m: CoinMap, id: Uint256, c: Coins)
    ensures Live(m[id := c]) == if c.IsPruned() then Live(m) - {id} else Live(m)[id := c]
  {
  }

  lemma SameUpdate(worn: bool, m1: CoinMap, m2: CoinMap, id: Uint256, c1: Coins, c2: Coins)
    requires Same(worn, m1, m2) && Near(worn, c1, c2)
    ensures Same(worn, m1[id := c1], m2[id := c2])
  {
    LiveOfUpdate(m1, id, c1);
    LiveOfUpdate(m2, id, c2);
  }

  lemma SameSpend(worn: bool, m1: CoinMap, m2: CoinMap, o: OutPoint)
    requires Same(worn, m1, m2)
    ensures Same(worn, SpendInput(m1, o), SpendInput(m2, o))
    ensures NearUndo(worn, UndoFor(m1, o), UndoFor(m2, o))
  {
    SameAvail(worn, m1, m2, o);
    if Avail(m1, o) {
      SameUpdate(worn, m1, m2, o.hash, SpendAt(m1[o.hash], o.n), SpendAt(m2[o.hash], o.n));
    } else {
      assert SpendInput(m1, o) == m1 && SpendInput(m2, o) == m2;
    }
  }

  lemma {:induction false} SameSpends(worn: bool, m1: CoinMap, m2: CoinMap, vin: seq<TxIn>, k: nat)
    requires k <= |vin| && Same(worn, m1, m2)
    ensures Same(worn, SpendInputs(m1, vin, k), SpendInputs(m2, vin, k))
  {
    if k > 0 {
      SameSpends(worn, m1, m2, vin, k - 1);
      SameSpend(worn, SpendInputs(m1, vin, k - 1), SpendInputs(m2, vin, k - 1), vin[k - 1].prevout);
    }
  }

  lemma SameUndos(worn: bool, m1: CoinMap, m2: CoinMap, vin: seq<TxIn>)
    requires Same(worn, m1, m2)
    ensures NearUndos(worn, UndosOf(m1, vin), UndosOf(m2, vin))
  {
    forall i | 0 <= i < |vin| ensures NearUndo(worn, UndosOf(m1, vin)[i], UndosOf(m2, vin)[i]) {
      SameSpends(worn, m1, m2, vin, i);
      SameSpend(worn, SpendInputs(m1, vin, i), SpendInputs(m2, vin, i), vin[i].prevout);
    }
  }

  /** Transactions applied to databases with the same unspent entries leave such databases. */
  lemma {:induction false} SameApply(worn: bool, m1: CoinMap, m2: CoinMap, vtx: seq<Tx>, k: nat, h: nat)
    requires k <= |vtx| && Same(worn, m1, m2)
    ensures Same(worn, ApplyTxs(m1, vtx, k, h), ApplyTxs(m2, vtx, k, h))
  {
    if k > 0 {
      SameApply(worn, m1, m2, vtx, k - 1, h);
      var a1, a2, tx := ApplyTxs(m1, vtx, k - 1, h), ApplyTxs(m2, vtx, k - 1, h), vtx[k - 1];
      SameSpends(worn, a1, a2, Inputs(tx), |Inputs(tx)|);
      SameUpdate(worn, SpendInputs(a1, Inputs(tx), |Inputs(tx)|), SpendInputs(a2, Inputs(tx), |Inputs(tx)|),
                 tx.hash, FromTx(tx, h), FromTx(tx, h));
    }
  }

  /** They record the same undo data for a block, but for versions. */
  lemma SameBlockUndo(worn: bool, m1: CoinMap, m2: CoinMap, vtx: seq<Tx>, h: nat)
    requires vtx != [] && Same(worn, m1, m2)
    ensures NearBlockUndo(worn, BlockUndoOf(m1, vtx, h), BlockUndoOf(m2, vtx, h))
  {
    forall i | 0 <= i < |vtx| - 1
      ensures NearUndos(worn, BlockUndoOf(m1, vtx, h)[i], BlockUndoOf(m2, vtx, h)[i])
    {
      SameApply(worn, m1, m2, vtx, i + 1, h);
      SameUndos(worn, ApplyTxs(m1, vtx, i + 1, h), ApplyTxs(m2, vtx, i + 1, h), vtx[i + 1].vin);
    }
  }

  /** Stored, they are the same altogether. */
  lemma NearStored(undos': BlockUndo, undos: BlockUndo)
    requires NearBlockUndo(true, undos', undos)
    ensures StoredBlockUndo(undos') == StoredBlockUndo(undos)
  {
    forall i | 0 <= i < |undos| ensures StoredBlockUndo(undos')[i] == StoredBlockUndo(undos)[i] {
      assert NearUndos(true, undos'[i], undos[i]);
      forall j | 0 <= j < |undos[i]|
        ensures StoredBlockUndo(undos')[i][j] == StoredBlockUndo(undos)[i][j]
      {
        assert NearUndo(true, undos'[i][j], undos[i][j]);
      }
    }
  }
}
