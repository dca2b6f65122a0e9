/** What a clean disconnect says about the database (src/main.cpp: DisconnectBlock, VerifyDB). */
module UndoCheck {
  import opened Core
  import opened Coins
  import opened Utxo
  import opened Blocks
  import opened BlockConnect
  import opened ChainState

  // ---- databases and undo data as the program leaves them ----

  /** An entry without outputs that can never be spent. */
  ghost predicate TidyCoins(c: Coins) {
    GoodCoins(c) && forall i :: 0 <= i < |c.vout| ==> c.vout[i].IsNull() || !IsUnspendable(c.vout[i].scriptPubKey)
  }

  ghost predicate Tidy(m: CoinMap) {
    forall id :: id in Live(m) ==> TidyCoins(m[id])
  }

  /** A record of an output that was unspent. */
  predicate UndoOfUnspent(undo: TxInUndo) {
    !undo.txout.IsNull() && MoneyRange(undo.txout.nValue) && !IsUnspendable(undo.txout.scriptPubKey)
  }

  ghost predicate TidyUndo(undo: TxUndo) {
    forall i :: 0 <= i < |undo| ==> UndoOfUnspent(undo[i])
  }

  ghost predicate TidyUndos(undos: BlockUndo) {
    forall i :: 0 <= i < |undos| ==> TidyUndo(undos[i])
  }

  /** The same entry, but that a transaction with a negative version may have had any version. */
  predicate Alike(c': Coins, c: Coins) {
    c' == c || (c'.nVersion < 0 && c' == c.(nVersion := c'.nVersion))
  }

  ghost predicate SameCoinsBut(m': CoinMap, m: CoinMap) {
    Live(m').Keys == Live(m).Keys && forall id :: id in Live(m) ==> Alike(m'[id], m[id])
  }

  // ---- they stay so ----

  lemma SpendTidy(m: CoinMap, o: OutPoint)
    requires Tidy(m)
    ensures Tidy(SpendInput(m, o))
    ensures Avail(m, o) ==> UndoOfUnspent(UndoFor(m, o))
  {
    if Avail(m, o) {
      var c := m[o.hash];
      assert !c.vout[o.n].IsNull();
      assert o.hash in Live(m);
      SpendKeepsGood(c, o.n);
      TrimmedPruned(SpendAt(c, o.n));
      hide SpendAt, GoodCoins;
      SpentTidy(c, o.n);
      TidyUpdate(m, o.hash, SpendAt(c, o.n));
    } else {
      assert SpendInput(m, o) == m;
    }
  }

  lemma SpentTidy(c: Coins, n: nat)
    requires TidyCoins(c) && c.IsAvailable(n)
    ensures SpendAt(c, n).IsPruned() || TidyCoins(SpendAt(c, n))
    ensures UndoOfUnspent(UndoOfSpend(c, n))
  {
    SpendKeepsGood(c, n);
    TrimmedPruned(SpendAt(c, n));
    var nulled := c.vout[n := NULL_TXOUT];
    forall i | 0 <= i < |SpendAt(c, n).vout|
      ensures SpendAt(c, n).vout[i].IsNull() || !IsUnspendable(SpendAt(c, n).vout[i].scriptPubKey)
    {
      assert SpendAt(c, n).vout[i] == nulled[i];
    }
  }

  lemma {:induction false} SpendsTidy(m: CoinMap, vin: seq<TxIn>, k: nat)
    requires k <= |vin| && Tidy(m)
    ensures Tidy(SpendInputs(m, vin, k))
  {
    hide Tidy, SpendInput;
    if k > 0 {
      SpendsTidy(m, vin, k - 1);
      SpendTidy(SpendInputs(m, vin, k - 1), vin[k - 1].prevout);
    }
  }

  lemma MadeTidy(tx: Tx, h: nat)
    requires WellFormedTx(tx) && h > 0
    ensures FromTx(tx, h).IsPruned() || TidyCoins(FromTx(tx, h))
  {
    FromTxGood(tx, h);
    TrimmedPruned(FromTx(tx, h));
    var nulled := NullUnspendable(tx.vout, |tx.vout|);
    forall i | 0 <= i < |FromTx(tx, h).vout|
      ensures FromTx(tx, h).vout[i].IsNull() || !IsUnspendable(FromTx(tx, h).vout[i].scriptPubKey)
    {
      assert FromTx(tx, h).vout[i] == nulled[i];
    }
  }

  /** A block of checked transactions leaves a tidy database. */
  lemma {:induction false} ApplyTidy(m: CoinMap, vtx: seq<Tx>, k: nat, h: nat)
    requires k <= |vtx| && Tidy(m) && AllWellFormed(vtx) && h > 0
    ensures Tidy(ApplyTxs(m, vtx, k, h))
  {
    hide Tidy, FromTx, WellFormedTx, SpendInputs;
    if k > 0 {
      var before, tx := ApplyTxs(m, vtx, k - 1, h), vtx[k - 1];
      ApplyTidy(m, vtx, k - 1, h);
      SpendsTidy(before, Inputs(tx), |Inputs(tx)|);
      assert WellFormedTx(tx);
      MadeTidy(tx, h);
      TidyUpdate(SpendInputs(before, Inputs(tx), |Inputs(tx)|), tx.hash, FromTx(tx, h));
    }
  }

  lemma RecordsTidy(m: CoinMap, vin: seq<TxIn>)
    requires Tidy(m) && SpendableInTurn(m, vin)
    ensures TidyUndo(UndosOf(m, vin))
  {
    hide Tidy, UndoOfUnspent, UndoFor, SpendInputs;
    forall i | 0 <= i < |vin| ensures UndoOfUnspent(UndosOf(m, vin)[i]) {
      SpendsTidy(m, vin, i);
      assert SpendableAt(m, vin, i);
      SpendTidy(SpendInputs(m, vin, i), vin[i].prevout);
    }
  }

  /** The undo data of a block that can be connected is that of unspent outputs. */
  lemma BlockRecordsTidy(m: CoinMap, vtx: seq<Tx>, h: nat)
    requires Tidy(m) && GoodMap(m) && Connectable(m, vtx, h)
    ensures TidyUndos(BlockUndoOf(m, vtx, h))
  {
    hide Tidy, TidyUndo, ApplyTxs, UndosOf;
    forall i | 0 <= i < |vtx| - 1 ensures TidyUndo(BlockUndoOf(m, vtx, h)[i]) {
      ApplyTidy(m, vtx, i + 1, h);
      TxReady(m, vtx, i + 1, h);
      RecordsTidy(ApplyTxs(m, vtx, i + 1, h), vtx[i + 1].vin);
    }
  }

  /** Storage keeps databases tidy. */
  lemma StoredTidy(m': CoinMap, m: CoinMap)
    requires Tidy(m) && Same(true, m', m)
    ensures Tidy(m')
  {
    forall id | id in Live(m') ensures TidyCoins(m'[id]) { assert id in Live(m) && Near(true, m'[id], m[id]); }
  }

  // ---- one input ----

  lemma RespendOut(found: Coins, n: nat, undo: TxInUndo)
    requires found.IsPruned() || TidyCoins(found)
    requires UndoOfUnspent(undo) && RestoreOut(found, n, undo).1
    ensures var c := RestoreOut(found, n, undo).0;
      && TidyCoins(c) && c.IsAvailable(n)
      && if found.IsPruned() then SpendAt(c, n).IsPruned() else SpendAt(c, n) == found
  {
    if found.IsPruned() {
      RespendLast(found, n, undo);
    } else {
      RespendNotLast(found, n, undo);
    }
  }

  /** The output was the last of its entry. */
  lemma RespendLast(found: Coins, n: nat, undo: TxInUndo)
    requires found.IsPruned() && UndoOfUnspent(undo) && RestoreOut(found, n, undo).1
    ensures var c := RestoreOut(found, n, undo).0; TidyCoins(c) && c.IsAvailable(n) && SpendAt(c, n).IsPruned()
  {
    var c := RestoreOut(found, n, undo).0;
    assert c.vout == Resized([], n + 1)[n := undo.txout];
    AllNullTrims(c.vout[n := NULL_TXOUT]);
  }

  /** Others were left. */
  lemma RespendNotLast(found: Coins, n: nat, undo: TxInUndo)
    requires !found.IsPruned() && TidyCoins(found) && UndoOfUnspent(undo) && RestoreOut(found, n, undo).1
    ensures var c := RestoreOut(found, n, undo).0; TidyCoins(c) && c.IsAvailable(n) && SpendAt(c, n) == found
  {
    var c := RestoreOut(found, n, undo).0;
    var nulled := c.vout[n := NULL_TXOUT];
    GrownTidy(found, n, undo.txout);
    assert nulled[..|found.vout|] == found.vout by {
      if n < |found.vout| { assert found.vout[n].IsNull(); }
    }
    TrimsTo(nulled, found.vout);
  }

  lemma GrownTidy(found: Coins, n: nat, out: TxOut)
    requires TidyCoins(found) && !found.IsAvailable(n)
    requires !out.IsNull() && MoneyRange(out.nValue) && !IsUnspendable(out.scriptPubKey)
    ensures TidyCoins(found.(vout := Resized(found.vout, n + 1)[n := out]))
  {
  }

  lemma AllNullTrims(vout: seq<TxOut>)
    requires forall i :: 0 <= i < |vout| ==> vout[i].IsNull()
    ensures Trim(vout) == []
  {
  }

  lemma TrimsTo(vout: seq<TxOut>, front: seq<TxOut>)
    requires front <= vout && front != [] && !front[|front| - 1].IsNull()
    requires forall i :: |front| <= i < |vout| ==> vout[i].IsNull()
    ensures Trim(vout) == front
  {
  }

  lemma TidyUpdate(m: CoinMap, id: Uint256, c: Coins)
    requires Tidy(m) && (c.IsPruned() || TidyCoins(c))
    ensures Tidy(m[id := c])
  {
    hide TidyCoins;
    LiveOfUpdate(m, id, c);
    var m' := m[id := c];
    forall k | k in Live(m') ensures TidyCoins(m'[k]) {
      if k != id { assert k in Live(m); }
    }
  }

  /** Spending an input again that was restored cleanly gives back the unspent entries. */
  lemma RespendInput(m: CoinMap, o: OutPoint, undo: TxInUndo)
    requires Tidy(m) && UndoOfUnspent(undo) && RestoreInput(m, o, undo).clean
    ensures var r := RestoreInput(m, o, undo).m;
      Tidy(r) && Avail(r, o) && Live(SpendInput(r, o)) == Live(m)
  {
    hide TidyCoins, RestoreOut, SpendAt, UndoOfUnspent;
    var found := if o.hash in m then m[o.hash] else EMPTY_COINS;
    if !found.IsPruned() { assert o.hash in Live(m); }
    RespendOut(found, o.n, undo);
    var c := RestoreOut(found, o.n, undo).0;
    var r := m[o.hash := c];
    TidyUpdate(m, o.hash, c);
    LiveOfUpdate(r, o.hash, SpendAt(c, o.n));
    LiveOfUpdate(m, o.hash, SpendAt(c, o.n));
    assert r[o.hash := SpendAt(c, o.n)] == m[o.hash := SpendAt(c, o.n)];
    LiveAt(m, o.hash);
  }

  lemma LiveAt(m: CoinMap, id: Uint256)
    ensures id in Live(m) <==> id in m && !m[id].IsPruned()
    ensures id in Live(m) ==> Live(m)[id] == m[id] && Live(m)[id := m[id]] == Live(m)
    ensures id !in Live(m) ==> Live(m) - {id} == Live(m)
  {
  }

  lemma LiveSpends(m1: CoinMap, m2: CoinMap, o: OutPoint)
    requires Live(m1) == Live(m2)
    ensures Live(SpendInput(m1, o)) == Live(SpendInput(m2, o))
  {
    hide Live, SpendInput;
    SameExact(m1, m2);
    SameSpend(false, m1, m2, o);
    SameExact(SpendInput(m1, o), SpendInput(m2, o));
  }

  lemma {:induction false} RespendInputs(m: CoinMap, vin: seq<TxIn>, undo: TxUndo, k: nat)
    requires k <= |vin| == |undo| && Tidy(m) && TidyUndo(undo) && RestoreInputs(m, vin, undo, k).clean
    ensures var r := RestoreInputs(m, vin, undo, k).m;
      Tidy(r) && Live(SpendInputs(r, vin, k)) == Live(m)
    decreases k
  {
    hide Tidy, RestoreInput, SpendInput, Live, UndoOfUnspent;
    if k > 0 {
      var o := vin[k - 1].prevout;
      var last := RestoreInput(m, o, undo[k - 1]).m;
      RespendInput(m, o, undo[k - 1]);
      RespendInputs(last, vin, undo, k - 1);
      LiveSpends(SpendInputs(RestoreInputs(last, vin, undo, k - 1).m, vin, k - 1), last, o);
    }
  }

  // ---- one transaction ----

  /** The outputs of a transaction are removed cleanly exactly from a database that holds for it what it makes. */
  lemma RemovedCleanly(m: CoinMap, tx: Tx, h: nat)
    requires Tidy(m)
    ensures RemoveOuts(m, tx, h).clean <==>
      if tx.hash in Live(m) then Alike(FromTx(tx, h), m[tx.hash]) else FromTx(tx, h).IsPruned()
    ensures Tidy(RemoveOuts(m, tx, h).m) && tx.hash !in Live(RemoveOuts(m, tx, h).m)
    ensures Live(RemoveOuts(m, tx, h).m) == Live(m) - {tx.hash}
  {
    var outs := if tx.hash in m then m[tx.hash] else EMPTY_COINS;
    LiveOfUpdate(m, tx.hash, EMPTY_COINS);
    LiveAt(m, tx.hash);
    assert EMPTY_COINS.IsPruned();
    if tx.hash in Live(m) {
      TidyStays(outs);
      assert !outs.IsPruned();
      OnlyVersionsDiffer(outs, tx, h);
    } else {
      PrunedStaysPruned(outs.vout);
    }
    TidyUpdate(m, tx.hash, EMPTY_COINS);
  }

  /** ClearUnspendable does nothing to an entry without unspendable outputs. */
  lemma TidyStays(c: Coins)
    requires TidyCoins(c)
    ensures SpendableOuts(c.vout) == c.vout
  {
    var nulled := NullUnspendable(c.vout, |c.vout|);
    forall i | 0 <= i < |c.vout| ensures nulled[i] == c.vout[i] {
      if c.vout[i].IsNull() { assert c.vout[i] == NULL_TXOUT; }
    }
    assert nulled == c.vout;
    TrimIdempotent(c.vout);
  }

  lemma OnlyVersionsDiffer(outs: Coins, tx: Tx, h: nat)
    requires !outs.IsPruned()
    ensures var compared := if tx.nVersion < 0 then outs.(nVersion := tx.nVersion) else outs;
      SameCoins(compared, FromTx(tx, h)) <==> Alike(FromTx(tx, h), outs)
  {
    var made := FromTx(tx, h);
    assert made.nVersion == tx.nVersion;
    var compared := if tx.nVersion < 0 then outs.(nVersion := tx.nVersion) else outs;
    assert !compared.IsPruned();
  }

  lemma AlikePruned(c': Coins, c: Coins)
    requires Alike(c', c)
    ensures c'.IsPruned() <==> c.IsPruned()
    ensures forall n :: c'.IsAvailable(n) <==> c.IsAvailable(n)
    ensures forall n: nat :: Alike(SpendAt(c', n), SpendAt(c, n))
  {
  }

  /** Adding the transaction again to what its clean removal left. */
  lemma ReaddOuts(m: CoinMap, m1: CoinMap, tx: Tx, h: nat)
    requires Tidy(m) && RemoveOuts(m, tx, h).clean && Live(m1) == Live(RemoveOuts(m, tx, h).m)
    ensures SameCoinsBut(m1[tx.hash := FromTx(tx, h)], m)
  {
    hide Alike, FromTx, Tidy, RemoveOuts;
    RemovedCleanly(m, tx, h);
    var made := FromTx(tx, h);
    var m' := m1[tx.hash := made];
    LiveOfUpdate(m1, tx.hash, made);
    if tx.hash in Live(m) { AlikePruned(made, m[tx.hash]); }
    LiveAt(m, tx.hash);
    forall id | id in Live(m) ensures id in Live(m') && Alike(m'[id], m[id]) {
      if id != tx.hash {
        assert id in Live(m1) && Live(m1)[id] == Live(m)[id];
        AlikeItself(m[id]);
      }
    }
    forall id | id in Live(m') ensures id in Live(m) {
      if id != tx.hash { assert id in Live(m1); }
    }
  }

  lemma AlikeItself(c: Coins)
    ensures Alike(c, c)
  {
  }

  // ---- the relation and applying ----

  lemma ButTrans(m1: CoinMap, m2: CoinMap, m3: CoinMap)
    requires SameCoinsBut(m1, m2) && SameCoinsBut(m2, m3)
    ensures SameCoinsBut(m1, m3)
  {
    forall id | id in Live(m3) ensures Alike(m1[id], m3[id]) {
      assert id in Live(m2) && Alike(m1[id], m2[id]) && Alike(m2[id], m3[id]);
    }
  }

  lemma ButUpdate(m1: CoinMap, m2: CoinMap, id: Uint256, c1: Coins, c2: Coins)
    requires SameCoinsBut(m1, m2) && Alike(c1, c2)
    ensures SameCoinsBut(m1[id := c1], m2[id := c2])
  {
    hide Alike;
    AlikePruned(c1, c2);
    LiveOfUpdate(m1, id, c1);
    LiveOfUpdate(m2, id, c2);
    var a, b := m1[id := c1], m2[id := c2];
    forall k | k in Live(b) ensures Alike(a[k], b[k]) {
      if k != id { assert k in Live(m2); }
    }
  }

  lemma ButSpend(m1: CoinMap, m2: CoinMap, o: OutPoint)
    requires SameCoinsBut(m1, m2)
    ensures SameCoinsBut(SpendInput(m1, o), SpendInput(m2, o))
  {
    if Avail(m1, o) || Avail(m2, o) {
      ButAvail(m1, m2, o);
      hide Alike;
      AlikePruned(m1[o.hash], m2[o.hash]);
      ButUpdate(m1, m2, o.hash, SpendAt(m1[o.hash], o.n), SpendAt(m2[o.hash], o.n));
    } else {
      assert SpendInput(m1, o) == m1 && SpendInput(m2, o) == m2;
    }
  }

  lemma ButAvail(m1: CoinMap, m2: CoinMap, o: OutPoint)
    requires SameCoinsBut(m1, m2) && (Avail(m1, o) || Avail(m2, o))
    ensures o.hash in m1 && o.hash in m2 && Alike(m1[o.hash], m2[o.hash])
  {
    if Avail(m1, o) {
      assert !m1[o.hash].vout[o.n].IsNull();
      assert o.hash in Live(m1);
    } else {
      assert !m2[o.hash].vout[o.n].IsNull();
      assert o.hash in Live(m2);
    }
  }

  lemma {:induction false} ButSpends(m1: CoinMap, m2: CoinMap, vin: seq<TxIn>, k: nat)
    requires k <= |vin| && SameCoinsBut(m1, m2)
    ensures SameCoinsBut(SpendInputs(m1, vin, k), SpendInputs(m2, vin, k))
  {
    hide SameCoinsBut, SpendInput;
    if k > 0 {
      ButSpends(m1, m2, vin, k - 1);
      ButSpend(SpendInputs(m1, vin, k - 1), SpendInputs(m2, vin, k - 1), vin[k - 1].prevout);
    }
  }

  lemma ButApply(m1: CoinMap, m2: CoinMap, tx: Tx, h: nat)
    requires SameCoinsBut(m1, m2)
    ensures SameCoinsBut(ApplyTx(m1, tx, h), ApplyTx(m2, tx, h))
  {
    hide SameCoinsBut, FromTx, SpendInputs;
    ButSpends(m1, m2, Inputs(tx), |Inputs(tx)|);
    AlikeItself(FromTx(tx, h));
    ButUpdate(SpendInputs(m1, Inputs(tx), |Inputs(tx)|), SpendInputs(m2, Inputs(tx), |Inputs(tx)|), tx.hash,
              FromTx(tx, h), FromTx(tx, h));
  }

  // ---- a block ----

  lemma RedoTx(m: CoinMap, tx: Tx, first: bool, undo: TxUndo, h: nat)
    requires Tidy(m) && TidyUndo(undo) && (first <==> tx.IsCoinBase())
    requires var r := UndoTx(m, tx, first, undo, h); r.ok && r.clean
    ensures var r := UndoTx(m, tx, first, undo, h).m; Tidy(r) && SameCoinsBut(ApplyTx(r, tx, h), m)
  {
    hide Tidy, RemoveOuts, RestoreInputs, SpendInputs, FromTx, Live, SameCoinsBut;
    RemovedCleanly(m, tx, h);
    var removed := RemoveOuts(m, tx, h).m;
    if first {
      NothingSpent(removed, Inputs(tx));
      ReaddOuts(m, removed, tx, h);
    } else {
      RespendInputs(removed, tx.vin, undo, |tx.vin|);
      ReaddOuts(m, SpendInputs(RestoreInputs(removed, tx.vin, undo, |tx.vin|).m, tx.vin, |tx.vin|), tx, h);
    }
  }

  lemma NothingSpent(m: CoinMap, vin: seq<TxIn>)
    ensures SpendInputs(m, vin, 0) == m
  {
  }

  lemma {:induction false} RedoTxs(m: CoinMap, vtx: seq<Tx>, undos: BlockUndo, k: nat, h: nat)
    requires k <= |vtx| == |undos| + 1 && CoinbaseFirst(vtx) && Tidy(m) && TidyUndos(undos)
    requires var r := UndoTxs(m, vtx, undos, k, h); r.ok && r.clean
    ensures var r := UndoTxs(m, vtx, undos, k, h).m; Tidy(r) && SameCoinsBut(ApplyTxs(r, vtx, k, h), m)
    decreases k
  {
    hide Tidy, UndoTx, ApplyTx, SameCoinsBut, TidyUndo;
    if k == 0 {
      ButItself(m);
    } else {
      var tx, undo := vtx[k - 1], UndoAt(undos, k - 1);
      NoUndo();
      assert (k == 1 <==> tx.IsCoinBase()) && TidyUndo(undo);
      RedoTx(m, tx, k == 1, undo, h);
      var one := UndoTx(m, tx, k == 1, undo, h).m;
      RedoTxs(one, vtx, undos, k - 1, h);
      ButApply(ApplyTxs(UndoTxs(one, vtx, undos, k - 1, h).m, vtx, k - 1, h), one, tx, h);
      ButTrans(ApplyTxs(UndoTxs(one, vtx, undos, k - 1, h).m, vtx, k, h), ApplyTx(one, tx, h), m);
    }
  }

  lemma NoUndo()
    ensures TidyUndo([])
  {
  }

  lemma ButItself(m: CoinMap)
    ensures SameCoinsBut(m, m)
  {
  }

  /** A clean answer can be relied on: if a block is disconnected cleanly from any database the program may hold, with any
      undo data of unspent outputs, the database left is such a database again, and the block's transactions applied to it
      give back the unspent entries there were. */
  lemma CleanIsReversible(m: CoinMap, vtx: seq<Tx>, undos: BlockUndo, h: nat)
    requires |vtx| == |undos| + 1 && CoinbaseFirst(vtx) && Tidy(m) && TidyUndos(undos)
    ensures var r := UndoTxs(m, vtx, undos, |vtx|, h);
      r.ok && r.clean ==> Tidy(r.m) && SameCoinsBut(ApplyTxs(r.m, vtx, |vtx|, h), m)
  {
    hide UndoTxs, ApplyTxs, SameCoinsBut, Tidy, TidyUndos;
    if UndoTxs(m, vtx, undos, |vtx|, h).ok && UndoTxs(m, vtx, undos, |vtx|, h).clean {
      RedoTxs(m, vtx, undos, |vtx|, h);
    }
  }

  /** Without negative versions in it, exactly. */
  lemma ReversibleExactly(m: CoinMap, vtx: seq<Tx>, undos: BlockUndo, h: nat)
    requires |vtx| == |undos| + 1 && CoinbaseFirst(vtx) && Tidy(m) && TidyUndos(undos)
    ensures var r := UndoTxs(m, vtx, undos, |vtx|, h);
      r.ok && r.clean && NoNegativeVersion(ApplyTxs(r.m, vtx, |vtx|, h)) ==>
        Live(ApplyTxs(r.m, vtx, |vtx|, h)) == Live(m)
  {
    hide UndoTxs, ApplyTxs, Tidy, TidyUndos;
    CleanIsReversible(m, vtx, undos, h);
    var r := UndoTxs(m, vtx, undos, |vtx|, h);
    if r.ok && r.clean && NoNegativeVersion(ApplyTxs(r.m, vtx, |vtx|, h)) {
      ButNonNegative(ApplyTxs(r.m, vtx, |vtx|, h), m);
    }
  }

  lemma ButNonNegative(m': CoinMap, m: CoinMap)
    requires SameCoinsBut(m', m) && NoNegativeVersion(m')
    ensures Live(m') == Live(m)
  {
    forall id | id in Live(m) ensures m'[id] == m[id] { assert id in Live(m') && Alike(m'[id], m[id]); }
  }

  // ---- every reachable state ----

  lemma {:induction false} BranchTidy(p: Params, b: BlockIndex)
    requires InTree(p, b) && ValidBranch(p, b)
    ensures Tidy(UtxoAfter(p, b))
  {
    hide ApplyTxs, AllInputsOk, LottoResultOk, BlockLimits, SigOpsOk;
    if b.pprev.Some? {
      BranchTidy(p, b.pprev.value);
      hide Tidy;
      ApplyTidy(UtxoBefore(p, b), b.block.vtx, |b.block.vtx|, b.nHeight);
    }
  }

  /** The coins and the stored undo data of every state the program reaches are such a database and such undo data. */
  lemma StatesTidy(p: Params, t: BlockIndex, m: CoinMap, best: Uint256, b: BlockIndex, undos: BlockUndo)
    requires Coherent(p, Some(t), m, best)
    requires InTree(p, b) && ValidBranch(p, b) && b.pprev.Some? && RecordOk(p, b, undos)
    ensures Tidy(m) && TidyUndos(undos)
  {
    hide Tidy, UtxoAfter, UtxoBefore, BlockUndoOf, InTree;
    BranchTidy(p, t);
    StoredTidy(m, UtxoAfter(p, t));
    BlockRecordsOnBranch(p, b);
    StoredRecordsTidy(BlockUndoOf(UtxoBefore(p, b), b.block.vtx, b.nHeight));
  }

  lemma BlockRecordsOnBranch(p: Params, b: BlockIndex)
    requires InTree(p, b) && ValidBranch(p, b) && b.pprev.Some?
    ensures b.block.vtx != [] && TidyUndos(BlockUndoOf(UtxoBefore(p, b), b.block.vtx, b.nHeight))
  {
    hide Tidy, TidyUndos, BlockUndoOf;
    BranchTidy(p, b.pprev.value);
    BranchGood(p, b);
    AcceptsConnectable(p, UtxoBefore(p, b), b);
    BlockRecordsTidy(UtxoBefore(p, b), b.block.vtx, b.nHeight);
  }

  lemma StoredRecordsTidy(undos: BlockUndo)
    requires TidyUndos(undos)
    ensures TidyUndos(StoredBlockUndo(undos))
  {
    forall i | 0 <= i < |undos| ensures TidyUndo(StoredBlockUndo(undos)[i]) { assert TidyUndo(undos[i]); }
  }
}
