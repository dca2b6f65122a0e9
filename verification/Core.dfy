/** Transactions, outpoints and undo records (src/core.h). */
module Core {
  /** A 256-bit hash. Only equality and the distinguished value 0 are ever used. */
  type Uint256 = nat

  /** A script as its byte values. */
  type Script = seq<nat>

  const COIN: int := 100_000_000
  const MAX_MONEY: int := 52_000_000 * COIN
  const MAX_BLOCK_SIZE: nat := 1_000_000
  const OP_RETURN: nat := 0x6a
  const OP_LOTTOUNSPEND: nat := 0xc2
  const NULL_INDEX: nat := 0xFFFF_FFFF

  predicate MoneyRange(nValue: int) {
    0 <= nValue <= MAX_MONEY
  }

  predicate IsUnspendable(script: Script) {
    |script| > 0 && (script[0] == OP_RETURN || script[0] == OP_LOTTOUNSPEND)
  }

  datatype OutPoint = OutPoint(hash: Uint256, n: nat) {
    predicate IsNull() { hash == 0 && n == NULL_INDEX }
  }

  datatype TxIn = TxIn(prevout: OutPoint, scriptSig: Script)

  /** An output; a spent one is marked by the value -1. */
  datatype TxOut = TxOut(nValue: int, scriptPubKey: Script) {
    predicate IsNull() { nValue == -1 }
  }

  const NULL_TXOUT := TxOut(-1, [])

  /** A transaction together with its cached txid. Nothing is assumed about how txids arise. */
  datatype Tx = Tx(hash: Uint256, nVersion: int, vin: seq<TxIn>, vout: seq<TxOut>) {
    predicate IsCoinBase() { |vin| == 1 && vin[0].prevout.IsNull() }
  }

  /** What spending one output records; the metadata is filled in (nHeight != 0) only for a last output. */
  datatype TxInUndo = TxInUndo(txout: TxOut, fCoinBase: bool, nHeight: nat, nVersion: int)

  type TxUndo = seq<TxInUndo>
  type BlockUndo = seq<TxUndo>

  // ---- serialized sizes ----

  /** Bytes of a length in front of a vector. */
  function CompactSizeLength(nSize: nat): (n: nat)
    ensures n > 0
  {
    if nSize < 253 then 1 else if nSize <= 0xFFFF then 3 else if nSize <= 0xFFFF_FFFF then 5 else 9
  }

  function ScriptSize(script: Script): nat {
    CompactSizeLength(|script|) + |script|
  }

  /** Bytes of the first k inputs: outpoint, script and sequence number each. */
  function InsSize(vin: seq<TxIn>, k: nat): nat
    requires k <= |vin|
  {
    if k == 0 then 0 else InsSize(vin, k - 1) + 36 + ScriptSize(vin[k - 1].scriptSig) + 4
  }

  /** Bytes of the first k outputs: value and script each. */
  function OutsSize(vout: seq<TxOut>, k: nat): nat
    requires k <= |vout|
  {
    if k == 0 then 0 else OutsSize(vout, k - 1) + 8 + ScriptSize(vout[k - 1].scriptPubKey)
  }

  /** Version, inputs, outputs and lock time. */
  function TxSize(tx: Tx): (n: nat)
    ensures n > 0
  {
    4 + CompactSizeLength(|tx.vin|) + InsSize(tx.vin, |tx.vin|)
    + CompactSizeLength(|tx.vout|) + OutsSize(tx.vout, |tx.vout|) + 4
  }

  // ---- values ----

  /** Sum of the output values. */
  function SumOuts(vout: seq<TxOut>): (s: int)
    ensures (forall i :: 0 <= i < |vout| ==> vout[i].nValue >= 0) ==> s >= 0
  {
    if vout == [] then 0 else SumOuts(vout[..|vout| - 1]) + vout[|vout| - 1].nValue
  }

  lemma {:induction false} SumOutsPrefix(vout: seq<TxOut>, k: nat)
    requires k <= |vout|
    requires forall i :: 0 <= i < |vout| ==> vout[i].nValue >= 0
    ensures SumOuts(vout[..k]) <= SumOuts(vout)
    decreases |vout|
  {
    if k == |vout| {
      assert vout[..k] == vout;
    } else {
      SumOutsPrefix(vout[..|vout| - 1], k);
      assert vout[..|vout| - 1][..k] == vout[..k];
    }
  }

  lemma {:induction false} SumOutsAppend(a: seq<TxOut>, b: seq<TxOut>)
    ensures SumOuts(a + b) == SumOuts(a) + SumOuts(b)
    decreases |b|
  {
    if b == [] {
      assert a + b == a;
    } else {
      SumOutsAppend(a, b[..|b| - 1]);
      assert (a + b)[..|a + b| - 1] == a + b[..|b| - 1];
    }
  }

  ghost predicate DistinctPrevouts(vin: seq<TxIn>) {
    forall i, j :: 0 <= i < j < |vin| ==> vin[i].prevout != vin[j].prevout
  }

  /** The context-free rules a single transaction must meet. */
  ghost predicate WellFormedTx(tx: Tx) {
    && tx.vin != []
    && tx.vout != []
    && TxSize(tx) <= MAX_BLOCK_SIZE
    && (forall i :: 0 <= i < |tx.vout| ==> tx.vout[i].nValue >= 0)
    && SumOuts(tx.vout) <= MAX_MONEY
    && DistinctPrevouts(tx.vin)
    && (if tx.IsCoinBase() then 2 <= |tx.vin[0].scriptSig| <= 100
        else forall i :: 0 <= i < |tx.vin| ==> !tx.vin[i].prevout.IsNull())
  }

  /** A checked loop over outputs that stops at the first value, or running total, out of range. */
  method CheckOutputs(vout: seq<TxOut>) returns (ok: bool)
    ensures ok <==> (forall i :: 0 <= i < |vout| ==> vout[i].nValue >= 0) && SumOuts(vout) <= MAX_MONEY
  {
    var nValueOut := 0;
    for k := 0 to |vout|
      invariant nValueOut == SumOuts(vout[..k]) && MoneyRange(nValueOut)
      invariant forall i :: 0 <= i < k ==> vout[i].nValue >= 0
    {
      assert vout[..k + 1][..k] == vout[..k];
      if vout[k].nValue < 0 { return false; }
      nValueOut := nValueOut + vout[k].nValue;
      if vout[k].nValue > MAX_MONEY || !MoneyRange(nValueOut) {
        if forall i :: 0 <= i < |vout| ==> vout[i].nValue >= 0 {
          SumOutsPrefix(vout, k + 1);
        }
        return false;
      }
    }
    assert vout[..|vout|] == vout;
    return true;
  }

  method CheckTransaction(tx: Tx) returns (ok: bool)
    ensures ok <==> WellFormedTx(tx)
  {
    if tx.vin == [] || tx.vout == [] { return false; }
    if TxSize(tx) > MAX_BLOCK_SIZE { return false; }
    var outsOk := CheckOutputs(tx.vout);
    if !outsOk { return false; }

    var vInOutPoints: set<OutPoint> := {};
    for k := 0 to |tx.vin|
      invariant DistinctPrevouts(tx.vin[..k])
      invariant vInOutPoints == set i | 0 <= i < k :: tx.vin[i].prevout
    {
      if tx.vin[k].prevout in vInOutPoints { return false; }
      vInOutPoints := vInOutPoints + {tx.vin[k].prevout};
    }
    assert tx.vin[..|tx.vin|] == tx.vin;

    if tx.IsCoinBase() {
      return 2 <= |tx.vin[0].scriptSig| <= 100;
    }
    for k := 0 to |tx.vin|
      invariant forall i :: 0 <= i < k ==> !tx.vin[i].prevout.IsNull()
    {
      if tx.vin[k].prevout.IsNull() { return false; }
    }
    return true;
  }
}
