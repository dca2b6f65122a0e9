/** Where the money goes: the value of the coin database and the lottery pool over a whole branch
    (src/main.cpp: GetBlockValue, ConnectBlock, CheckLottoResult). */
module Money {
  import opened Core
  import opened Coins
  import opened Utxo
  import opened Blocks
  import opened BlockConnect
  import opened ChainIndex
  import opened ChainState

  // ---- the value of an entry and of a database ----

  function OutValue(out: TxOut): int {
    if out.IsNull() then 0 else out.nValue
  }

  /** Value of the first k outputs. */
  function OutsValue(vout: seq<TxOut>, k: nat): int
    requires k <= |vout|
  {
    if k == 0 then 0 else OutsValue(vout, k - 1) + OutValue(vout[k - 1])
  }

  function EntryValue(c: Coins): int {
    OutsValue(c.vout, |c.vout|)
  }

  /** Value of all unspent outputs. */
  ghost function Total(m: CoinMap): int {
    if m == map[] then 0
    else
      var id :| id in m;
      EntryValue(m[id]) + Total(m - {id})
  }

  lemma {:induction false} TotalRemove(m: CoinMap, id: Uint256)
    requires id in m
    ensures Total(m) == EntryValue(m[id]) + Total(m - {id})
    decreases |m|
  {
    var k :| k in m && Total(m) == EntryValue(m[k]) + Total(m - {k});
    if k != id {
      var rest := m - {k};
      assert |rest| < |m|;
      TotalRemove(rest, id);
      var both := m - {id};
      assert |both| < |m|;
      TotalRemove(both, k);
      assert rest - {id} == both - {k};
    }
  }

  lemma TotalUpdate(m: CoinMap, id: Uint256, c: Coins)
    ensures Total(m[id := c]) == Total(m) - (if id in m then EntryValue(m[id]) else 0) + EntryValue(c)
  {
    TotalRemove(m[id := c], id);
    assert m[id := c] - {id} == m - {id};
    if id in m {
      TotalRemove(m, id);
    } else {
      assert m - {id} == m;
    }
  }

  lemma {:induction false} OutsValueAgree(a: seq<TxOut>, b: seq<TxOut>, k: nat)
    requires k <= |a| && k <= |b|
    requires forall i :: 0 <= i < k ==> a[i] == b[i]
    ensures OutsValue(a, k) == OutsValue(b, k)
  {
    if k > 0 { OutsValueAgree(a, b, k - 1); }
  }

  lemma {:induction false} OutsValueNullTail(vout: seq<TxOut>, j: nat, k: nat)
    requires j <= k <= |vout|
    requires forall i :: j <= i < k ==> vout[i].IsNull()
    ensures OutsValue(vout, k) == OutsValue(vout, j)
  {
    if j < k { OutsValueNullTail(vout, j, k - 1); }
  }

  lemma TrimValue(vout: seq<TxOut>)
    ensures OutsValue(Trim(vout), |Trim(vout)|) == OutsValue(vout, |vout|)
  {
    OutsValueNullTail(vout, |Trim(vout)|, |vout|);
    OutsValueAgree(Trim(vout), vout, |Trim(vout)|);
  }

  lemma {:induction false} NullOneValue(vout: seq<TxOut>, n: nat, k: nat)
    requires n < |vout| && k <= |vout|
    ensures OutsValue(vout[n := NULL_TXOUT], k) == OutsValue(vout, k) - if n < k then OutValue(vout[n]) else 0
  {
    if k > 0 { NullOneValue(vout, n, k - 1); }
  }

  lemma {:induction false} PrunedValue(vout: seq<TxOut>, k: nat)
    requires k <= |vout| && forall i :: 0 <= i < k ==> vout[i].IsNull()
    ensures OutsValue(vout, k) == 0
  {
    if k > 0 { PrunedValue(vout, k - 1); }
  }

  /** Spent entries are worth nothing, so equal databases have equal totals. */
  lemma {:induction false} TotalLive(m: CoinMap)
    ensures Total(m) == Total(Live(m))
    decreases |m|
  {
    if m != map[] {
      var id :| id in m;
      var rest := m - {id};
      assert |rest| < |m|;
      TotalRemove(m, id);
      TotalLive(rest);
      if m[id].IsPruned() {
        PrunedValue(m[id].vout, |m[id].vout|);
        assert Live(rest) == Live(m);
      } else {
        TotalRemove(Live(m), id);
        assert Live(rest) == Live(m) - {id};
      }
    } else {
      assert Live(m) == map[];
    }
  }

  // ---- one transaction ----

  lemma SpendTotal(m: CoinMap, o: OutPoint)
    requires Avail(m, o)
    ensures Total(SpendInput(m, o)) == Total(m) - ValueOf(m, o)
  {
    var c := m[o.hash];
    var nulled := c.vout[o.n := NULL_TXOUT];
    TotalUpdate(m, o.hash, SpendAt(c, o.n));
    TrimValue(nulled);
    NullOneValue(c.vout, o.n, |c.vout|);
  }

  /** What an input is worth does not depend on the inputs spent before it. */
  lemma ValueAtTurn(m: CoinMap, vin: seq<TxIn>, k: nat)
    requires k < |vin| && DistinctPrevouts(vin) && HaveInputs(m, vin)
    ensures ValueOf(SpendInputs(m, vin, k), vin[k].prevout) == ValueOf(m, vin[k].prevout)
  {
    SpendInputsKeepsOthers(m, vin, k, vin[k].prevout);
  }

  lemma {:induction false} SpendsTotal(m: CoinMap, vin: seq<TxIn>, k: nat)
    requires k <= |vin| && DistinctPrevouts(vin) && HaveInputs(m, vin)
    ensures Total(SpendInputs(m, vin, k)) == Total(m) - ValueIn(m, vin, k)
  {
    if k > 0 {
      SpendsTotal(m, vin, k - 1);
      HaveInputsSpendable(m, vin);
      assert SpendableAt(m, vin, k - 1);
      SpendTotal(SpendInputs(m, vin, k - 1), vin[k - 1].prevout);
      ValueAtTurn(m, vin, k - 1);
    }
  }

  /** Value of the first k outputs that can never be spent. */
  function Burned(vout: seq<TxOut>, k: nat): int
    requires k <= |vout|
  {
    if k == 0 then 0
    else Burned(vout, k - 1) + if IsUnspendable(vout[k - 1].scriptPubKey) then vout[k - 1].nValue else 0
  }

  lemma {:induction false} NullUnspendableValue(vout: seq<TxOut>, k: nat)
    requires k <= |vout| && forall i :: 0 <= i < |vout| ==> vout[i].nValue >= 0
    ensures OutsValue(NullUnspendable(vout, |vout|), k) == SumOuts(vout[..k]) - Burned(vout, k)
  {
    if k > 0 {
      NullUnspendableValue(vout, k - 1);
      assert vout[..k][..k - 1] == vout[..k - 1];
    }
  }

  lemma FromTxValue(tx: Tx, h: nat)
    requires WellFormedTx(tx)
    ensures EntryValue(FromTx(tx, h)) == SumOuts(tx.vout) - Burned(tx.vout, |tx.vout|)
  {
    var vout := tx.vout;
    TrimValue(NullUnspendable(vout, |vout|));
    NullUnspendableValue(vout, |vout|);
    assert vout[..|vout|] == vout;
  }

  /** A transaction moves value: what goes in is taken out of the database, what comes out is put in,
      except for what it burns. */
  lemma TxTotal(m: CoinMap, tx: Tx, h: nat)
    requires WellFormedTx(tx) && Ready(m, tx) && HaveInputs(m, Inputs(tx))
    ensures Total(ApplyTx(m, tx, h)) ==
      Total(m) - FeeOf(m, tx) + (if tx.IsCoinBase() then SumOuts(tx.vout) else 0) - Burned(tx.vout, |tx.vout|)
  {
    var vin := Inputs(tx);
    var spent := SpendInputs(m, vin, |vin|);
    SpendsTotal(m, vin, |vin|);
    TotalUpdate(spent, tx.hash, FromTx(tx, h));
    FromTxValue(tx, h);
    if tx.hash in spent {
      assert spent[tx.hash].IsPruned();
      PrunedValue(spent[tx.hash].vout, |spent[tx.hash].vout|);
    }
  }

  // ---- one block ----

  function BurnedTxs(vtx: seq<Tx>, k: nat): int
    requires k <= |vtx|
  {
    if k == 0 then 0 else BurnedTxs(vtx, k - 1) + Burned(vtx[k - 1].vout, |vtx[k - 1].vout|)
  }

  /** Value of the bets among the first k outputs whose script leaves them spendable. */
  function KeptBets(p: Params, nTipHeight: int, vout: seq<TxOut>, k: nat): int
    requires k <= |vout|
  {
    if k == 0 then 0
    else
      KeptBets(p, nTipHeight, vout, k - 1)
      + if IsBet(p, nTipHeight, vout, k - 1) && !IsUnspendable(vout[k - 1].scriptPubKey) then vout[k - 1].nValue else 0
  }

  function KeptBetsTxs(p: Params, nTipHeight: int, vtx: seq<Tx>, k: nat): int
    requires k <= |vtx|
  {
    if k == 0 then 0
    else KeptBetsTxs(p, nTipHeight, vtx, k - 1)
         + if vtx[k - 1].IsCoinBase() then 0 else KeptBets(p, nTipHeight, vtx[k - 1].vout, |vtx[k - 1].vout|)
  }

  lemma {:induction false} BetsBurnedOrKept(p: Params, nTipHeight: int, vout: seq<TxOut>, k: nat)
    requires k <= |vout| && forall i :: 0 <= i < |vout| ==> vout[i].nValue >= 0
    ensures 0 <= BetsOfOuts(p, nTipHeight, vout, k) <= Burned(vout, k) + KeptBets(p, nTipHeight, vout, k)
    ensures 0 <= Burned(vout, k)
  {
    hide IsBet;
    if k > 0 { BetsBurnedOrKept(p, nTipHeight, vout, k - 1); }
  }

  lemma {:induction false} BlockBetsBurnedOrKept(p: Params, nTipHeight: int, vtx: seq<Tx>, k: nat)
    requires k <= |vtx| && AllWellFormed(vtx)
    ensures BetsOfTxs(p, nTipHeight, vtx, k) <= BurnedTxs(vtx, k) + KeptBetsTxs(p, nTipHeight, vtx, k)
    ensures 0 <= BurnedTxs(vtx, k)
  {
    if k > 0 {
      BlockBetsBurnedOrKept(p, nTipHeight, vtx, k - 1);
      assert WellFormedTx(vtx[k - 1]);
      BetsBurnedOrKept(p, nTipHeight, vtx[k - 1].vout, |vtx[k - 1].vout|);
    }
  }

  lemma {:induction false} TxsTotal(m: CoinMap, vtx: seq<Tx>, k: nat, h: nat)
    requires GoodMap(m) && Connectable(m, vtx, h) && k <= |vtx|
    ensures Total(ApplyTxs(m, vtx, k, h)) ==
      Total(m) - FeesOf(m, vtx, k, h) + (if k > 0 then SumOuts(vtx[0].vout) else 0) - BurnedTxs(vtx, k)
  {
    hide SpendableInTurn, ApplyTx, FeeOf, NoOverwrite;
    if k > 0 {
      TxsTotal(m, vtx, k - 1, h);
      TxReady(m, vtx, k - 1, h);
      assert InputsAtTurn(m, vtx, k - 1, h) && WellFormedTx(vtx[k - 1]);
      TxTotal(ApplyTxs(m, vtx, k - 1, h), vtx[k - 1], h);
    }
  }

  /** What the miner could have claimed and did not. */
  function Unclaimed(m: CoinMap, b: BlockIndex): int
    requires b.block.vtx != [] && b.block.vtx[0].vout != []
  {
    GetBlockValue(b.nHeight, FeesOf(m, b.block.vtx, |b.block.vtx|, b.nHeight)) - b.block.vtx[0].vout[0].nValue
  }

  /** An accepted block adds exactly the subsidy and the lottery payouts, less what it burns and what its miner
      leaves unclaimed, which is not negative. */
  lemma BlockTotal(p: Params, m: CoinMap, b: BlockIndex)
    requires GoodMap(m) && Accepts(p, m, b) && b.nHeight > 0
    ensures Total(ApplyTxs(m, b.block.vtx, |b.block.vtx|, b.nHeight)) ==
      Total(m) + GetBlockValue(b.nHeight, 0) + SumOuts(PayoutOuts(b.block))
      - BurnedTxs(b.block.vtx, |b.block.vtx|) - Unclaimed(m, b)
    ensures Unclaimed(m, b) >= 0
  {
    var vtx := b.block.vtx;
    AcceptsConnectable(p, m, b);
    TxsTotal(m, vtx, |vtx|, b.nHeight);
    var vout := vtx[0].vout;
    SumOutsAppend([vout[0]], vout[1..]);
    assert [vout[0]] + vout[1..] == vout;
    assert SumOuts([vout[0]]) == vout[0].nValue by { assert [vout[0]][..0] == []; }
  }

  // ---- a whole branch ----

  function Subsidies(b: BlockIndex): int {
    match b.pprev
    case None => 0
    case Some(q) => Subsidies(q) + GetBlockValue(b.nHeight, 0)
  }

  /** The subsidies up to a height, in closed form. */
  function Minted(h: nat): int {
    if h <= 100 then h * 100_000 * COIN
    else if h <= 105_120 then (10_000_000 + (h - 100) * 250) * COIN
    else if h <= 210_239 then (36_255_000 + (h - 105_120) * 130) * COIN
    else 49_920_470 * COIN + (h - 210_239) * 20
  }

  lemma {:induction false} SubsidiesMinted(b: BlockIndex)
    requires b.Valid()
    ensures Subsidies(b) == Minted(b.nHeight)
  {
    if b.pprev.Some? { SubsidiesMinted(b.pprev.value); }
  }

  /** The subsidies alone stay within the money range up to a height far beyond 32 bits. */
  lemma SubsidiesInRange(b: BlockIndex)
    requires b.Valid()
    ensures MoneyRange(Subsidies(b)) <==> b.nHeight <= 10_397_650_210_239
  {
    SubsidiesMinted(b);
  }

  function PayoutsOn(b: BlockIndex): int {
    match b.pprev
    case None => 0
    case Some(q) => PayoutsOn(q) + SumOuts(PayoutOuts(b.block))
  }

  function BetsOn(p: Params, b: BlockIndex): int {
    match b.pprev
    case None => 0
    case Some(q) => BetsOn(p, q) + BetsOfBlock(p, q.nHeight, b.block)
  }

  function KeptBetsOn(p: Params, b: BlockIndex): int {
    match b.pprev
    case None => 0
    case Some(q) => KeptBetsOn(p, q) + KeptBetsTxs(p, q.nHeight, b.block.vtx, |b.block.vtx|)
  }

  function BurnedOn(b: BlockIndex): int {
    match b.pprev
    case None => 0
    case Some(q) => BurnedOn(q) + BurnedTxs(b.block.vtx, |b.block.vtx|)
  }

  /** The pool the genesis header starts with. */
  function RootPool(b: BlockIndex): int {
    match b.pprev
    case None => b.block.lottoHeader.llPool
    case Some(q) => RootPool(q)
  }

  /** The pool of a valid branch is the genesis pool plus all bets minus all payouts. */
  lemma {:induction false} PoolAccounts(p: Params, b: BlockIndex)
    requires InTree(p, b) && ValidBranch(p, b)
    ensures b.block.lottoHeader.llPool == RootPool(b) + BetsOn(p, b) - PayoutsOn(b)
  {
    if b.pprev.Some? {
      PoolAccounts(p, b.pprev.value);
      PoolEquation(p, b.pprev.value, b.block);
    }
  }

  /** What the miners of a valid branch left unclaimed. */
  ghost function UnclaimedOn(p: Params, b: BlockIndex): int
    requires InTree(p, b) && ValidBranch(p, b)
  {
    match b.pprev
    case None => 0
    case Some(q) => UnclaimedOn(p, q) + Unclaimed(UtxoBefore(p, b), b)
  }

  /** The unspent outputs of a valid branch are worth its subsidies plus its payouts, less what was burned and what
      was left unclaimed. */
  lemma {:induction false} SupplyAccounts(p: Params, b: BlockIndex)
    requires InTree(p, b) && ValidBranch(p, b)
    ensures Total(UtxoAfter(p, b)) == Subsidies(b) + PayoutsOn(b) - BurnedOn(b) - UnclaimedOn(p, b)
    ensures UnclaimedOn(p, b) >= 0
  {
    hide Unclaimed, GetBlockValue;
    if b.pprev.Some? {
      SupplyAccounts(p, b.pprev.value);
      BranchGood(p, b.pprev.value);
      BlockTotal(p, UtxoBefore(p, b), b);
    }
  }

  lemma {:induction false} BetsBurnedOrKeptOn(p: Params, b: BlockIndex)
    requires InTree(p, b) && ValidBranch(p, b)
    ensures BetsOn(p, b) <= BurnedOn(b) + KeptBetsOn(p, b)
    ensures 0 <= BurnedOn(b)
  {
    if b.pprev.Some? {
      BetsBurnedOrKeptOn(p, b.pprev.value);
      BlockBetsBurnedOrKept(p, b.pprev.value.nHeight, b.block.vtx, |b.block.vtx|);
    }
  }

  lemma TotalSame(worn: bool, m1: CoinMap, m2: CoinMap)
    requires Same(worn, m1, m2)
    ensures Total(m1) == Total(m2)
  {
    TotalLive(m1);
    TotalLive(m2);
    TotalOfValues(Live(m1), Live(m2));
  }

  lemma {:induction false} TotalOfValues(m1: CoinMap, m2: CoinMap)
    requires m1.Keys == m2.Keys && forall id :: id in m1 ==> EntryValue(m1[id]) == EntryValue(m2[id])
    ensures Total(m1) == Total(m2)
    decreases |m1|
  {
    if m1 == map[] {
      assert m2 == map[];
    } else {
      var id :| id in m1;
      TotalRemove(m1, id);
      TotalRemove(m2, id);
      var rest := m1 - {id};
      assert |rest| < |m1|;
      TotalOfValues(rest, m2 - {id});
    }
  }

  /** In every state of every run coins and pool are together worth the subsidies, the genesis pool and the bets,
      less what was burned and what was left unclaimed. */
  lemma StateAccounts(p: Params, t: BlockIndex, m: CoinMap, best: Uint256)
    requires Coherent(p, Some(t), m, best)
    ensures Total(m) == Subsidies(t) + PayoutsOn(t) - BurnedOn(t) - UnclaimedOn(p, t)
    ensures Total(m) + t.block.lottoHeader.llPool ==
      Subsidies(t) + RootPool(t) + BetsOn(p, t) - BurnedOn(t) - UnclaimedOn(p, t)
  {
    TotalSame(true, m, UtxoAfter(p, t));
    PoolAccounts(p, t);
    SupplyAccounts(p, t);
  }

  /** Coins and pool are together covered by the subsidies and the genesis pool. */
  ghost predicate Solvent(t: BlockIndex, m: CoinMap) {
    Total(m) + t.block.lottoHeader.llPool <= Subsidies(t) + RootPool(t)
  }

  /** A state is solvent exactly when no more was bet than burned or left unclaimed; the shortfall is at most the
      bets that stay spendable. */
  lemma SolventExactly(p: Params, t: BlockIndex, m: CoinMap, best: Uint256)
    requires Coherent(p, Some(t), m, best)
    ensures Solvent(t, m) <==> BetsOn(p, t) <= BurnedOn(t) + UnclaimedOn(p, t)
    ensures Total(m) + t.block.lottoHeader.llPool <= Subsidies(t) + RootPool(t) + KeptBetsOn(p, t)
  {
    StateAccounts(p, t, m, best);
    SupplyAccounts(p, t);
    BetsBurnedOrKeptOn(p, t);
  }

  // ---- when no bet can be spent ----

  ghost predicate BetsUnspendable(p: Params, nTipHeight: int, vout: seq<TxOut>) {
    forall i :: 0 <= i < |vout| ==> IsBet(p, nTipHeight, vout, i) ==> IsUnspendable(vout[i].scriptPubKey)
  }

  /** No bet on the branch has a script that can be spent. */
  ghost predicate NoSpendableBet(p: Params, b: BlockIndex) {
    match b.pprev
    case None => true
    case Some(q) =>
      && NoSpendableBet(p, q)
      && forall i :: 0 <= i < |b.block.vtx| ==>
        b.block.vtx[i].IsCoinBase() || BetsUnspendable(p, q.nHeight, b.block.vtx[i].vout)
  }

  lemma {:induction false} NoneKept(p: Params, nTipHeight: int, vout: seq<TxOut>, k: nat)
    requires k <= |vout| && BetsUnspendable(p, nTipHeight, vout)
    ensures KeptBets(p, nTipHeight, vout, k) == 0
  {
    if k > 0 { NoneKept(p, nTipHeight, vout, k - 1); }
  }

  lemma {:induction false} NoneKeptInBlock(p: Params, nTipHeight: int, vtx: seq<Tx>, k: nat)
    requires k <= |vtx|
    requires forall i :: 0 <= i < |vtx| ==> vtx[i].IsCoinBase() || BetsUnspendable(p, nTipHeight, vtx[i].vout)
    ensures KeptBetsTxs(p, nTipHeight, vtx, k) == 0
  {
    if k > 0 {
      NoneKeptInBlock(p, nTipHeight, vtx, k - 1);
      if !vtx[k - 1].IsCoinBase() { NoneKept(p, nTipHeight, vtx[k - 1].vout, |vtx[k - 1].vout|); }
    }
  }

  lemma {:induction false} NoneKeptOn(p: Params, b: BlockIndex)
    requires NoSpendableBet(p, b)
    ensures KeptBetsOn(p, b) == 0
  {
    if b.pprev.Some? {
      NoneKeptOn(p, b.pprev.value);
      NoneKeptInBlock(p, b.pprev.value.nHeight, b.block.vtx, |b.block.vtx|);
    }
  }

  /** A lottery whose bets all have unspendable scripts mints nothing. */
  lemma UnspendableBetsSolvent(p: Params, t: BlockIndex, m: CoinMap, best: Uint256)
    requires Coherent(p, Some(t), m, best) && NoSpendableBet(p, t)
    ensures Solvent(t, m)
  {
    SolventExactly(p, t, m, best);
    NoneKeptOn(p, t);
  }
}
