/** CCoins: what is left of a transaction once some of its outputs are spent (src/coins.h, src/coins.cpp). */
module Coins {
  import opened Core

  /** The value of a CCoins object. */
  datatype Coins = Coins(fCoinBase: bool, vout: seq<TxOut>, nHeight: nat, nVersion: int) {
    ghost predicate IsPruned() {
      forall i :: 0 <= i < |vout| ==> vout[i].IsNull()
    }

    predicate IsAvailable(n: nat) {
      n < |vout| && !vout[n].IsNull()
    }
  }

  /** A version after storage: a negative one is written as its low seven bits. */
  function StoredVersion(nVersion: int): int {
    if nVersion < 0 then nVersion % 128 else nVersion
  }

  function Stored(c: Coins): Coins {
    c.(nVersion := StoredVersion(c.nVersion))
  }

  function StoredUndo(undo: TxInUndo): TxInUndo {
    undo.(nVersion := StoredVersion(undo.nVersion))
  }

  const EMPTY_COINS := Coins(false, [], 0, 0)

  /** Two fully spent objects are equal whatever their metadata. */
  ghost predicate SameCoins(a: Coins, b: Coins) {
    (a.IsPruned() && b.IsPruned()) || a == b
  }

  /** vout without its spent tail. */
  function Trim(vout: seq<TxOut>): (r: seq<TxOut>)
    ensures r <= vout
    ensures r == [] || !r[|r| - 1].IsNull()
    ensures forall i :: |r| <= i < |vout| ==> vout[i].IsNull()
  {
    if vout == [] || !vout[|vout| - 1].IsNull() then vout else Trim(vout[..|vout| - 1])
  }

  /** The first j outputs with the provably unspendable ones nulled, the others untouched. */
  function NullUnspendable(vout: seq<TxOut>, j: nat): (r: seq<TxOut>)
    requires j <= |vout|
  {
    seq(|vout|, i requires 0 <= i < |vout| =>
      if i < j && IsUnspendable(vout[i].scriptPubKey) then NULL_TXOUT else vout[i])
  }

  function SpendableOuts(vout: seq<TxOut>): seq<TxOut> {
    Trim(NullUnspendable(vout, |vout|))
  }

  /** The entry a transaction leaves behind when it is added at a height. */
  function FromTx(tx: Tx, nHeight: nat): Coins {
    Coins(tx.IsCoinBase(), SpendableOuts(tx.vout), nHeight, tx.nVersion)
  }

  function SpendAt(c: Coins, n: nat): Coins {
    if c.IsAvailable(n) then c.(vout := Trim(c.vout[n := NULL_TXOUT])) else c
  }

  /** The undo record of that spend: metadata only when nothing is left. */
  function UndoOfSpend(c: Coins, n: nat): TxInUndo
    requires c.IsAvailable(n)
  {
    if SpendAt(c, n).vout == [] then TxInUndo(c.vout[n], c.fCoinBase, c.nHeight, c.nVersion)
    else TxInUndo(c.vout[n], false, 0, 0)
  }

  /** vout grown with null outputs to length at least len. */
  function Resized(vout: seq<TxOut>, len: nat): (r: seq<TxOut>)
    ensures |r| == if |vout| < len then len else |vout|
  {
    vout + if |vout| < len then seq(len - |vout|, _ => NULL_TXOUT) else []
  }

  /** What every live entry of the coin database looks like: trimmed, canonical nulls, a nonzero
      height, values in range. */
  ghost predicate GoodCoins(c: Coins) {
    && c.vout != []
    && !c.vout[|c.vout| - 1].IsNull()
    && c.nHeight > 0
    && forall i :: 0 <= i < |c.vout| ==> (c.vout[i] == NULL_TXOUT || MoneyRange(c.vout[i].nValue))
  }

  lemma TrimmedPruned(c: Coins)
    requires c.vout == [] || !c.vout[|c.vout| - 1].IsNull()
    ensures c.IsPruned() <==> c.vout == []
  {
    if c.vout != [] { assert !c.vout[|c.vout| - 1].IsNull(); }
  }

  /** Putting a spent output back restores the entry exactly, whether or not it was the last one. */
  lemma RestoreAfterSpend(c: Coins, n: nat)
    requires GoodCoins(c) && c.IsAvailable(n)
    ensures var undo := UndoOfSpend(c, n); var left := SpendAt(c, n);
      && undo.txout == c.vout[n]
      && !left.IsAvailable(n)
      && (undo.nHeight != 0 <==> left.IsPruned())
      && (left.IsPruned() ==>
            Coins(undo.fCoinBase, Resized([], n + 1)[n := undo.txout], undo.nHeight, undo.nVersion) == c)
      && (!left.IsPruned() ==> left.(vout := Resized(left.vout, n + 1)[n := undo.txout]) == c)
  {
    var left := SpendAt(c, n);
    var nulled := c.vout[n := NULL_TXOUT];
    TrimmedPruned(left);
    var grown := Resized(left.vout, n + 1)[n := c.vout[n]];
    assert |grown| == |c.vout| by {
      // the last output of c is unspent, so it is either kept by the trim or is the one being spent
      if n != |c.vout| - 1 { assert !nulled[|c.vout| - 1].IsNull(); }
    }
    assert grown == c.vout;
  }

  /** A spend of one output leaves the others alone. */
  lemma SpendKeepsOthers(c: Coins, n: nat, k: nat)
    requires k != n
    ensures SpendAt(c, n).IsAvailable(k) <==> c.IsAvailable(k)
    ensures c.IsAvailable(k) ==> SpendAt(c, n).vout[k] == c.vout[k]
  {
    if c.IsAvailable(n) && k < |c.vout| {
      assert c.vout[n := NULL_TXOUT][k] == c.vout[k];
    }
  }

  lemma SpendKeepsGood(c: Coins, n: nat)
    requires GoodCoins(c)
    ensures SpendAt(c, n).vout != [] ==> GoodCoins(SpendAt(c, n))
  {
  }

  lemma FromTxGood(tx: Tx, h: nat)
    requires h > 0 && WellFormedTx(tx)
    ensures FromTx(tx, h).vout != [] ==> GoodCoins(FromTx(tx, h))
  {
    var n := |tx.vout|;
    forall i | 0 <= i < n ensures MoneyRange(tx.vout[i].nValue) {
      SumOutsPrefix(tx.vout, i + 1);
      assert tx.vout[..i + 1][..i] == tx.vout[..i];
    }
  }

  lemma TrimIdempotent(vout: seq<TxOut>)
    requires vout == [] || !vout[|vout| - 1].IsNull()
    ensures Trim(vout) == vout
  {
  }

  /** ClearUnspendable changes nothing on an entry it already produced. */
  lemma SpendableOutsIdempotent(vout: seq<TxOut>)
    ensures SpendableOuts(SpendableOuts(vout)) == SpendableOuts(vout)
  {
    var s := SpendableOuts(vout);
    assert NullUnspendable(s, |s|) == s;
    TrimIdempotent(s);
  }

  /** The CCoins object. */
  class CCoins {
    var fCoinBase: bool
    var vout: seq<TxOut>
    var nHeight: nat
    var nVersion: int

    ghost function Value(): Coins
      reads this
    {
      Coins(fCoinBase, vout, nHeight, nVersion)
    }

    constructor (c: Coins)
      ensures Value() == c
    {
      fCoinBase, vout, nHeight, nVersion := c.fCoinBase, c.vout, c.nHeight, c.nVersion;
    }

    constructor OfTx(tx: Tx, nHeightIn: nat)
      ensures Value() == FromTx(tx, nHeightIn)
    {
      fCoinBase, vout, nHeight, nVersion := tx.IsCoinBase(), tx.vout, nHeightIn, tx.nVersion;
      new;
      ClearUnspendable();
    }

    method Get() returns (c: Coins)
      ensures c == Value()
    {
      c := Coins(fCoinBase, vout, nHeight, nVersion);
    }

    method Cleanup()
      modifies this
      ensures Value() == old(Value()).(vout := Trim(old(vout)))
    {
      while |vout| > 0 && vout[|vout| - 1].IsNull()
        invariant Value() == old(Value()).(vout := vout)
        invariant Trim(vout) == Trim(old(vout))
      {
        vout := vout[..|vout| - 1];
      }
    }

    method ClearUnspendable()
      modifies this
      ensures Value() == old(Value()).(vout := SpendableOuts(old(vout)))
    {
      var j := 0;
      while j < |vout|
        invariant j <= |vout| == |old(vout)|
        invariant Value() == old(Value()).(vout := NullUnspendable(old(vout), j))
      {
        if IsUnspendable(vout[j].scriptPubKey) {
          vout := vout[j := NULL_TXOUT];
        }
        j := j + 1;
        assert vout == NullUnspendable(old(vout), j);
      }
      Cleanup();
    }

    method IsPruned() returns (b: bool)
      ensures b <==> Value().IsPruned()
    {
      for j := 0 to |vout|
        invariant forall i :: 0 <= i < j ==> vout[i].IsNull()
      {
        if !vout[j].IsNull() { return false; }
      }
      return true;
    }

    /** operator== of two objects. */
    method Equals(that: CCoins) returns (b: bool)
      ensures b <==> SameCoins(Value(), that.Value())
    {
      var p := IsPruned();
      var q := that.IsPruned();
      if p && q { return true; }
      return fCoinBase == that.fCoinBase && nHeight == that.nHeight && nVersion == that.nVersion
          && vout == that.vout;
    }

    /** Mark one output spent and hand back the undo record; an output not there is refused. */
    method Spend(out: OutPoint) returns (ok: bool, undo: TxInUndo)
      modifies this
      ensures ok <==> old(Value()).IsAvailable(out.n)
      ensures Value() == SpendAt(old(Value()), out.n)
      ensures ok ==> undo == UndoOfSpend(old(Value()), out.n)
    {
      undo := TxInUndo(NULL_TXOUT, false, 0, 0);
      if out.n >= |vout| || vout[out.n].IsNull() { return false, undo; }
      undo := TxInUndo(vout[out.n], false, 0, 0);
      vout := vout[out.n := NULL_TXOUT];
      Cleanup();
      if |vout| == 0 {
        undo := TxInUndo(undo.txout, fCoinBase, nHeight, nVersion);
      }
      return true, undo;
    }
  }
}
