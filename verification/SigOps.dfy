/** Counting signature operations (src/script.h, src/script.cpp, src/main.cpp). */
module SigOps {
  import opened Core
  import opened Coins
  import opened Utxo
  import opened CoinsView
  import opened Blocks

  const MAX_BLOCK_SIGOPS: nat := MAX_BLOCK_SIZE / 50

  const OP_PUSHDATA1: nat := 0x4c
  const OP_PUSHDATA2: nat := 0x4d
  const OP_PUSHDATA4: nat := 0x4e
  const OP_1: nat := 0x51
  const OP_16: nat := 0x60
  const OP_EQUAL: nat := 0x87
  const OP_HASH160: nat := 0xa9
  const OP_CHECKSIG: nat := 0xac
  const OP_CHECKSIGVERIFY: nat := 0xad
  const OP_CHECKMULTISIG: nat := 0xae
  const OP_CHECKMULTISIGVERIFY: nat := 0xaf
  const OP_INVALIDOPCODE: nat := 0xff

  // ---- reading a script ----

  /** An operation: its code, the data it pushes, and where the next one starts. */
  datatype Op = Op(opcode: nat, data: Script, next: nat)

  /** The data of a push, if all of it is there. */
  function Pushed(s: Script, opcode: nat, start: nat, nSize: nat): Option<Op> {
    if start + nSize <= |s| then Some(Op(opcode, s[start..start + nSize], start + nSize)) else None
  }

  /** The operation at a place, unless the script breaks off within it. */
  function GetOp(s: Script, pc: nat): (r: Option<Op>)
    requires pc < |s|
    ensures r.Some? ==> pc < r.value.next <= |s| && r.value.opcode == s[pc]
  {
    var opcode := s[pc];
    if opcode > OP_PUSHDATA4 then Some(Op(opcode, [], pc + 1))
    else if opcode < OP_PUSHDATA1 then Pushed(s, opcode, pc + 1, opcode)
    else if opcode == OP_PUSHDATA1 then
      if |s| - pc < 2 then None else Pushed(s, opcode, pc + 2, s[pc + 1])
    else if opcode == OP_PUSHDATA2 then
      if |s| - pc < 3 then None else Pushed(s, opcode, pc + 3, s[pc + 1] + 0x100 * s[pc + 2])
    else if |s| - pc < 5 then None
    else Pushed(s, opcode, pc + 5, s[pc + 1] + 0x100 * s[pc + 2] + 0x1_0000 * s[pc + 3] + 0x100_0000 * s[pc + 4])
  }

  /** What one operation counts; an accurate count takes the number of keys from the operation before. */
  function OpCount(opcode: nat, last: nat, fAccurate: bool): nat {
    if opcode == OP_CHECKSIG || opcode == OP_CHECKSIGVERIFY then 1
    else if opcode == OP_CHECKMULTISIG || opcode == OP_CHECKMULTISIGVERIFY then
      if fAccurate && OP_1 <= last <= OP_16 then last - OP_1 + 1 else 20
    else 0
  }

  /** By code: a check counts one; a check of several keys counts 20, or in an accurate count as many as a small number
      right before it says; nothing else counts. */
  lemma OpCountBy(opcode: nat, last: nat, fAccurate: bool)
    ensures OpCount(opcode, last, fAccurate) ==
      if opcode == 0xac || opcode == 0xad then 1
      else if opcode == 0xae || opcode == 0xaf then if fAccurate && 0x51 <= last <= 0x60 then last - 0x50 else 20
      else 0
  {
  }

  function CountFrom(s: Script, pc: nat, last: nat, fAccurate: bool): nat
    decreases |s| - pc
  {
    if pc >= |s| then 0
    else
      match GetOp(s, pc)
      case None => 0
      case Some(op) => OpCount(op.opcode, last, fAccurate) + CountFrom(s, op.next, op.opcode, fAccurate)
  }

  function SigOpCount(s: Script, fAccurate: bool): nat {
    CountFrom(s, 0, OP_INVALIDOPCODE, fAccurate)
  }

  predicate IsPayToScriptHash(s: Script) {
    |s| == 23 && s[0] == OP_HASH160 && s[1] == 0x14 && s[22] == OP_EQUAL
  }

  /** The last item a script pushes, if it does nothing but push. */
  function LastPush(s: Script, pc: nat, data: Script): Option<Script>
    decreases |s| - pc
  {
    if pc >= |s| then Some(data)
    else
      match GetOp(s, pc)
      case None => None
      case Some(op) => if op.opcode > OP_16 then None else LastPush(s, op.next, op.data)
  }

  /** The count of the script an input of a pay-to-script-hash output brings along. */
  function RedeemSigOps(scriptPubKey: Script, scriptSig: Script): nat {
    if !IsPayToScriptHash(scriptPubKey) then 0
    else
      match LastPush(scriptSig, 0, [])
      case None => 0
      case Some(subscript) => SigOpCount(subscript, true)
  }

  method GetSigOpCount(s: Script, fAccurate: bool) returns (n: nat)
    ensures n == SigOpCount(s, fAccurate)
  {
    hide GetOp, OpCount;
    n := 0;
    var pc: nat, lastOpcode: nat := 0, OP_INVALIDOPCODE;
    while pc < |s|
      invariant n + CountFrom(s, pc, lastOpcode, fAccurate) == SigOpCount(s, fAccurate)
    {
      var op := GetOp(s, pc);
      if op.None? { break; }
      n := n + OpCount(op.value.opcode, lastOpcode, fAccurate);
      pc, lastOpcode := op.value.next, op.value.opcode;
    }
  }

  method GetRedeemSigOpCount(scriptPubKey: Script, scriptSig: Script) returns (n: nat)
    requires IsPayToScriptHash(scriptPubKey)
    ensures n == RedeemSigOps(scriptPubKey, scriptSig)
  {
    hide GetOp, SigOpCount;
    var data: Script, pc: nat := [], 0;
    while pc < |scriptSig|
      invariant LastPush(scriptSig, pc, data) == LastPush(scriptSig, 0, [])
    {
      var op := GetOp(scriptSig, pc);
      if op.None? { return 0; }
      if op.value.opcode > OP_16 { return 0; }
      pc, data := op.value.next, op.value.data;
    }
    n := GetSigOpCount(data, true);
  }

  // ---- transactions ----

  function InSigOps(vin: seq<TxIn>, k: nat): nat
    requires k <= |vin|
  {
    if k == 0 then 0 else InSigOps(vin, k - 1) + SigOpCount(vin[k - 1].scriptSig, false)
  }

  function OutSigOps(vout: seq<TxOut>, k: nat): nat
    requires k <= |vout|
  {
    if k == 0 then 0 else OutSigOps(vout, k - 1) + SigOpCount(vout[k - 1].scriptPubKey, false)
  }

  function LegacySigOps(tx: Tx): nat {
    InSigOps(tx.vin, |tx.vin|) + OutSigOps(tx.vout, |tx.vout|)
  }

  method GetLegacySigOpCount(tx: Tx) returns (nSigOps: nat)
    ensures nSigOps == LegacySigOps(tx)
  {
    nSigOps := 0;
    for i := 0 to |tx.vin|
      invariant nSigOps == InSigOps(tx.vin, i)
    {
      var n := GetSigOpCount(tx.vin[i].scriptSig, false);
      nSigOps := nSigOps + n;
    }
    for i := 0 to |tx.vout|
      invariant nSigOps == InSigOps(tx.vin, |tx.vin|) + OutSigOps(tx.vout, i)
    {
      var n := GetSigOpCount(tx.vout[i].scriptPubKey, false);
      nSigOps := nSigOps + n;
    }
  }

  /** Operations in the scripts the first k inputs bring along for pay-to-script-hash outputs. */
  function RedeemSigOpsOf(m: CoinMap, vin: seq<TxIn>, k: nat): nat
    requires k <= |vin|
  {
    if k == 0 then 0
    else
      var o := vin[k - 1].prevout;
      RedeemSigOpsOf(m, vin, k - 1)
      + if Avail(m, o) then RedeemSigOps(m[o.hash].vout[o.n].scriptPubKey, vin[k - 1].scriptSig) else 0
  }

  function P2SHSigOps(m: CoinMap, tx: Tx): nat {
    RedeemSigOpsOf(m, Inputs(tx), |Inputs(tx)|)
  }

  method GetP2SHSigOpCount(tx: Tx, inputs: CCoinsViewCache) returns (nSigOps: nat)
    requires inputs.Valid() && Utxo.HaveInputs(inputs.Map(), Inputs(tx))
    modifies inputs.Repr
    ensures inputs.OnlyFilled() && inputs.SameBest()
    ensures nSigOps == P2SHSigOps(inputs.Map(), tx)
  {
    nSigOps := 0;
    if tx.IsCoinBase() { return; }
    for i := 0 to |tx.vin|
      invariant inputs.OnlyFilled() && inputs.SameBest()
      invariant nSigOps == RedeemSigOpsOf(inputs.Map(), tx.vin, i)
    {
      var prevout := tx.vin[i].prevout;
      assert Avail(inputs.Map(), prevout);
      var found, coins := inputs.GetCoins(prevout.hash);
      var script := coins.vout[prevout.n].scriptPubKey;
      if IsPayToScriptHash(script) {
        var n := GetRedeemSigOpCount(script, tx.vin[i].scriptSig);
        nSigOps := nSigOps + n;
      }
    }
  }

  // ---- blocks ----

  function LegacySigOpsOf(vtx: seq<Tx>, k: nat): nat
    requires k <= |vtx|
  {
    if k == 0 then 0 else LegacySigOpsOf(vtx, k - 1) + LegacySigOps(vtx[k - 1])
  }

  /** All operations of one transaction against the database before it. */
  function TxSigOps(m: CoinMap, tx: Tx): nat {
    LegacySigOps(tx) + P2SHSigOps(m, tx)
  }

  /** All operations of the first k transactions, each counted against the database before it. */
  function SigOpsOf(m: CoinMap, vtx: seq<Tx>, k: nat, h: nat): nat
    requires k <= |vtx|
  {
    if k == 0 then 0 else SigOpsOf(m, vtx, k - 1, h) + TxSigOps(ApplyTxs(m, vtx, k - 1, h), vtx[k - 1])
  }

  lemma {:induction false} SigOpsGrow(m: CoinMap, vtx: seq<Tx>, j: nat, k: nat, h: nat)
    requires j <= k <= |vtx|
    ensures SigOpsOf(m, vtx, j, h) <= SigOpsOf(m, vtx, k, h)
  {
    hide TxSigOps, ApplyTxs;
    if j < k { SigOpsGrow(m, vtx, j, k - 1, h); }
  }

  lemma {:induction false} LegacyBelowAll(m: CoinMap, vtx: seq<Tx>, k: nat, h: nat)
    requires k <= |vtx|
    ensures LegacySigOpsOf(vtx, k) <= SigOpsOf(m, vtx, k, h)
  {
    hide LegacySigOps, P2SHSigOps, ApplyTxs;
    if k > 0 { LegacyBelowAll(m, vtx, k - 1, h); }
  }

  lemma {:induction false} SameRedeem(worn: bool, m1: CoinMap, m2: CoinMap, vin: seq<TxIn>, k: nat)
    requires k <= |vin| && Same(worn, m1, m2)
    ensures RedeemSigOpsOf(m1, vin, k) == RedeemSigOpsOf(m2, vin, k)
  {
    hide Same, RedeemSigOps;
    if k > 0 {
      SameRedeem(worn, m1, m2, vin, k - 1);
      SameAvail(worn, m1, m2, vin[k - 1].prevout);
    }
  }

  lemma {:induction false} SameSigOps(worn: bool, m1: CoinMap, m2: CoinMap, vtx: seq<Tx>, k: nat, h: nat)
    requires k <= |vtx| && Same(worn, m1, m2)
    ensures SigOpsOf(m1, vtx, k, h) == SigOpsOf(m2, vtx, k, h)
  {
    hide Same, ApplyTx, LegacySigOps, RedeemSigOpsOf;
    if k > 0 {
      var tx := vtx[k - 1];
      SameSigOps(worn, m1, m2, vtx, k - 1, h);
      SameApply(worn, m1, m2, vtx, k - 1, h);
      SameRedeem(worn, ApplyTxs(m1, vtx, k - 1, h), ApplyTxs(m2, vtx, k - 1, h), Inputs(tx), |Inputs(tx)|);
    }
  }
}
