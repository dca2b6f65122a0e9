/** The coin database as a record of what happened on a branch: an output is there exactly if it was made and not
    spent since (src/coins.h, src/main.cpp: UpdateCoins, CheckInputs). */
module History {
  import opened Core
  import opened Coins
  import opened Utxo
  import opened Blocks
  import opened SigOps
  import opened BlockConnect
  import opened ChainIndex
  import opened ChainState

  /** A transaction taking effect in a block of a height. */
  datatype Event = Event(tx: Tx, nHeight: nat)

  function EventsOf(vtx: seq<Tx>, h: nat): (events: seq<Event>)
    ensures |events| == |vtx| && forall i :: 0 <= i < |vtx| ==> events[i] == Event(vtx[i], h)
  {
    seq(|vtx|, i requires 0 <= i < |vtx| => Event(vtx[i], h))
  }

  /** Every transaction of a branch above genesis, in order. */
  function Events(b: BlockIndex): seq<Event> {
    match b.pprev
    case None => []
    case Some(q) => Events(q) + EventsOf(b.block.vtx, b.nHeight)
  }

  /** It makes an output that can be spent. */
  predicate Makes(e: Event, o: OutPoint) {
    e.tx.hash == o.hash && o.n < |e.tx.vout| && !IsUnspendable(e.tx.vout[o.n].scriptPubKey)
  }

  ghost predicate Spends(e: Event, o: OutPoint) {
    !e.tx.IsCoinBase() && exists i :: 0 <= i < |e.tx.vin| && e.tx.vin[i].prevout == o
  }

  /** Of the first k events the last that makes the output, unless it was spent after that; -1 if there is none. */
  ghost function Maker(events: seq<Event>, k: nat, o: OutPoint): (c: int)
    requires k <= |events|
    ensures -1 <= c < k
  {
    if k == 0 then -1
    else if Makes(events[k - 1], o) then k - 1
    else if Spends(events[k - 1], o) then -1
    else Maker(events, k - 1, o)
  }

  ghost predicate MadeAt(events: seq<Event>, k: nat, o: OutPoint, c: nat)
    requires k <= |events|
  {
    c < k && Makes(events[c], o) && forall j :: c < j < k ==> !Spends(events[j], o)
  }

  /** Something made it and nothing spent it since exactly when there is a maker, which is the last that made it. */
  lemma {:induction false} MakerIs(events: seq<Event>, k: nat, o: OutPoint)
    requires k <= |events|
    ensures Maker(events, k, o) >= 0 <==> exists c :: MadeAt(events, k, o, c)
    ensures Maker(events, k, o) >= 0 ==> MadeAt(events, k, o, Maker(events, k, o))
    ensures forall j :: Maker(events, k, o) < j < k && Maker(events, k, o) >= 0 ==> !Makes(events[j], o)
  {
    hide Makes, Spends;
    if k > 0 {
      MakerIs(events, k - 1, o);
      if Makes(events[k - 1], o) {
        assert MadeAt(events, k, o, k - 1);
      } else {
        if exists c :: MadeAt(events, k, o, c) {
          var c :| MadeAt(events, k, o, c);
          assert MadeAt(events, k - 1, o, c);
        }
        if Maker(events, k, o) >= 0 { assert MadeAt(events, k, o, Maker(events, k - 1, o)); }
      }
    }
  }

  // ---- the database as a fold over events ----

  ghost function Replay(events: seq<Event>, k: nat): CoinMap
    requires k <= |events|
  {
    if k == 0 then map[] else ApplyTx(Replay(events, k - 1), events[k - 1].tx, events[k - 1].nHeight)
  }

  lemma {:induction false} ReplayPrefix(a: seq<Event>, b: seq<Event>, k: nat)
    requires k <= |a|
    ensures Replay(a + b, k) == Replay(a, k)
  {
    hide ApplyTx;
    if k > 0 { ReplayPrefix(a, b, k - 1); }
  }

  lemma {:induction false} ReplayBlock(a: seq<Event>, vtx: seq<Tx>, h: nat, k: nat)
    requires k <= |vtx|
    ensures Replay(a + EventsOf(vtx, h), |a| + k) == ApplyTxs(Replay(a, |a|), vtx, k, h)
  {
    hide ApplyTx;
    if k == 0 {
      ReplayPrefix(a, EventsOf(vtx, h), |a|);
    } else {
      ReplayBlock(a, vtx, h, k - 1);
      assert (a + EventsOf(vtx, h))[|a| + k - 1] == Event(vtx[k - 1], h);
    }
  }

  lemma {:induction false} ReplayBranch(p: Params, b: BlockIndex)
    requires InTree(p, b)
    ensures Replay(Events(b), |Events(b)|) == UtxoAfter(p, b)
  {
    hide ApplyTxs, Replay, EventsOf;
    if b.pprev.Some? {
      ReplayBranch(p, b.pprev.value);
      ReplayBlock(Events(b.pprev.value), b.block.vtx, b.nHeight, |b.block.vtx|);
    } else {
      NothingReplayed(p, b);
    }
  }

  lemma NothingReplayed(p: Params, b: BlockIndex)
    requires InTree(p, b) && b.pprev.None?
    ensures Replay(Events(b), |Events(b)|) == map[] == UtxoAfter(p, b)
  {
  }

  lemma EventsSplit(p: Params, b: BlockIndex)
    requires InTree(p, b) && ValidBranch(p, b) && b.pprev.Some?
    ensures InTree(p, b.pprev.value) && ValidBranch(p, b.pprev.value)
    ensures Events(b) == Events(b.pprev.value) + EventsOf(b.block.vtx, b.nHeight)
  {
    hide CanConnect;
  }

  lemma NoEvents(b: BlockIndex)
    requires b.pprev.None?
    ensures Events(b) == []
  {
  }

  // ---- what a valid branch guarantees at every event ----

  ghost predicate EventOk(p: Params, events: seq<Event>, k: nat)
    requires k < |events|
  {
    var m, e := Replay(events, k), events[k];
    && WellFormedTx(e.tx) && InputsOk(p, m, e.tx, e.nHeight) && Ready(m, e.tx)
  }

  lemma EventOkPrefix(p: Params, a: seq<Event>, b: seq<Event>, k: nat)
    requires k < |a| && EventOk(p, a, k)
    ensures EventOk(p, a + b, k)
  {
    hide InputsOk, Ready, WellFormedTx, Replay;
    ReplayPrefix(a, b, k);
  }

  lemma EventOkInBlock(p: Params, a: seq<Event>, vtx: seq<Tx>, h: nat, i: nat)
    requires i < |vtx| && WellFormedTx(vtx[i])
    requires var m := ApplyTxs(Replay(a, |a|), vtx, i, h); InputsOk(p, m, vtx[i], h) && Ready(m, vtx[i])
    ensures EventOk(p, a + EventsOf(vtx, h), |a| + i)
  {
    hide InputsOk, Ready, WellFormedTx, Replay, ApplyTxs;
    ReplayBlock(a, vtx, h, i);
    assert (a + EventsOf(vtx, h))[|a| + i] == Event(vtx[i], h);
  }

  lemma {:induction false} BranchEventOk(p: Params, b: BlockIndex, k: nat)
    requires InTree(p, b) && ValidBranch(p, b) && k < |Events(b)|
    ensures EventOk(p, Events(b), k)
  {
    hide EventOk, ApplyTxs, InputsOk, Ready, WellFormedTx, InTree, ValidBranch, Events, Replay;
    if b.pprev.None? { NoEvents(b); }
    EventsSplit(p, b);
    var q := b.pprev.value;
    var a := Events(q);
    if k < |a| {
      BranchEventOk(p, q, k);
      EventOkPrefix(p, a, EventsOf(b.block.vtx, b.nHeight), k);
    } else {
      ReplayBranch(p, q);
      BlockEventOk(p, b, k - |a|);
      EventOkInBlock(p, a, b.block.vtx, b.nHeight, k - |a|);
    }
  }

  lemma BlockEventOk(p: Params, b: BlockIndex, i: nat)
    requires InTree(p, b) && ValidBranch(p, b) && b.pprev.Some? && i < |b.block.vtx|
    ensures var m, tx := ApplyTxs(UtxoBefore(p, b), b.block.vtx, i, b.nHeight), b.block.vtx[i];
      WellFormedTx(tx) && InputsOk(p, m, tx, b.nHeight) && Ready(m, tx)
  {
    hide ApplyTxs, InputsOk, Ready;
    BranchGood(p, b);
    AcceptsConnectable(p, UtxoBefore(p, b), b);
    TxReady(UtxoBefore(p, b), b.block.vtx, i, b.nHeight);
    assert TxOkAt(p, UtxoBefore(p, b), b.block.vtx, i, b.nHeight);
    assert WellFormedTx(b.block.vtx[i]);
  }

  /** Each event belongs to a block of the branch, at its height. */
  lemma {:induction false} EventPlace(b: BlockIndex, k: nat)
    requires b.Valid() && k < |Events(b)|
    ensures var h := Events(b)[k].nHeight;
      0 < h <= b.nHeight && Events(b)[k].tx in Ancestors(b)[h].block.vtx
  {
    var q := b.pprev.value;
    AncestorParent(b, b.nHeight);
    if k < |Events(q)| {
      EventPlace(q, k);
    } else {
      assert Events(b)[k].tx == b.block.vtx[k - |Events(q)|];
      AncestorAt(b, b.nHeight);
    }
  }

  // ---- one event ----

  /** An entry is what is left of an output's maker. */
  ghost predicate Holds(c: Coins, n: nat, e: Event) {
    && c.IsAvailable(n) && n < |e.tx.vout| && c.vout[n] == e.tx.vout[n]
    && c.fCoinBase == e.tx.IsCoinBase() && c.nHeight == e.nHeight && c.nVersion == e.tx.nVersion
  }

  lemma MadeEntry(e: Event, o: OutPoint)
    requires WellFormedTx(e.tx) && e.tx.hash == o.hash
    ensures FromTx(e.tx, e.nHeight).IsAvailable(o.n) <==> Makes(e, o)
    ensures Makes(e, o) ==> Holds(FromTx(e.tx, e.nHeight), o.n, e)
  {
    var nulled := NullUnspendable(e.tx.vout, |e.tx.vout|);
    var left := Trim(nulled);
    if o.n < |e.tx.vout| {
      assert nulled[o.n] == if IsUnspendable(e.tx.vout[o.n].scriptPubKey) then NULL_TXOUT else e.tx.vout[o.n];
    }
  }

  lemma SpentAway(m: CoinMap, o: OutPoint)
    ensures !Avail(SpendInput(m, o), o)
  {
    if Avail(m, o) {
      var c := m[o.hash];
      var nulled := c.vout[o.n := NULL_TXOUT];
      assert nulled[o.n].IsNull();
    }
  }

  lemma NotBack(m: CoinMap, o: OutPoint, s: OutPoint)
    requires !Avail(m, o)
    ensures !Avail(SpendInput(m, s), o)
  {
    if s == o { SpentAway(m, o); } else { SpendInputKeepsOthers(m, s, o); }
  }

  lemma {:induction false} SpentByOne(m: CoinMap, vin: seq<TxIn>, k: nat, o: OutPoint)
    requires k <= |vin|
    ensures Avail(SpendInputs(m, vin, k), o) <==> Avail(m, o) && forall i :: 0 <= i < k ==> vin[i].prevout != o
  {
    hide Avail, SpendInput;
    if k > 0 {
      var before, s := SpendInputs(m, vin, k - 1), vin[k - 1].prevout;
      SpentByOne(m, vin, k - 1, o);
      if s == o {
        SpentAway(before, o);
      } else {
        SpendInputKeepsOthers(before, s, o);
      }
    }
  }

  /** Spending leaves an entry's other outputs and its metadata alone. */
  lemma SpendHolds(m: CoinMap, s: OutPoint, o: OutPoint, e: Event)
    requires o.hash in m && Holds(m[o.hash], o.n, e) && s != o
    ensures o.hash in SpendInput(m, s) && Holds(SpendInput(m, s)[o.hash], o.n, e)
  {
    SpendInputKeepsOthers(m, s, o);
  }

  lemma {:induction false} SpendsHold(m: CoinMap, vin: seq<TxIn>, k: nat, o: OutPoint, e: Event)
    requires k <= |vin| && o.hash in m && Holds(m[o.hash], o.n, e) && forall i :: 0 <= i < k ==> vin[i].prevout != o
    ensures o.hash in SpendInputs(m, vin, k) && Holds(SpendInputs(m, vin, k)[o.hash], o.n, e)
  {
    hide Holds;
    if k > 0 {
      SpendsHold(m, vin, k - 1, o, e);
      SpendHolds(SpendInputs(m, vin, k - 1), vin[k - 1].prevout, o, e);
    }
  }

  /** The output is there with its maker's data exactly if it has one. */
  ghost predicate Recorded(events: seq<Event>, k: nat, m: CoinMap, o: OutPoint)
    requires k <= |events|
  {
    var c := Maker(events, k, o);
    && (Avail(m, o) <==> c >= 0)
    && (c >= 0 ==> o.hash in m && Holds(m[o.hash], o.n, events[c]))
  }

  lemma NextRecorded(p: Params, events: seq<Event>, k: nat, m: CoinMap, o: OutPoint)
    requires k < |events| && m == Replay(events, k) && EventOk(p, events, k) && Recorded(events, k, m, o)
    ensures Recorded(events, k + 1, ApplyTx(m, events[k].tx, events[k].nHeight), o)
  {
    hide WellFormedTx, InputsOk, FromTx, Holds, Replay, SpendInputs;
    var e, c := events[k], Maker(events, k, o);
    var vin := Inputs(e.tx);
    var spent := SpendInputs(m, vin, |vin|);
    SpentByOne(m, vin, |vin|, o);
    assert Spends(e, o) <==> exists i :: 0 <= i < |vin| && vin[i].prevout == o;
    if e.tx.hash == o.hash {
      MadeEntry(e, o);
      if Avail(spent, o) { AvailLive(spent, o); }
    } else if c >= 0 && !Spends(e, o) {
      SpendsHold(m, vin, |vin|, o, events[c]);
    }
  }

  lemma AvailLive(m: CoinMap, o: OutPoint)
    requires Avail(m, o)
    ensures o.hash in Live(m)
  {
    assert !m[o.hash].vout[o.n].IsNull();
  }

  lemma {:induction false} AllRecorded(p: Params, events: seq<Event>, k: nat, o: OutPoint)
    requires k <= |events| && forall j :: 0 <= j < k ==> EventOk(p, events, j)
    ensures Recorded(events, k, Replay(events, k), o)
  {
    hide EventOk, ApplyTx;
    if k == 0 {
      NothingRecorded(events, o);
    } else {
      AllRecorded(p, events, k - 1, o);
      hide Recorded;
      NextRecorded(p, events, k - 1, Replay(events, k - 1), o);
    }
  }

  lemma NothingRecorded(events: seq<Event>, o: OutPoint)
    ensures Recorded(events, 0, Replay(events, 0), o)
  {
  }

  // ---- the laws ----

  /** On every valid branch the unspent outputs are those made and not spent since, each with the value and script it was
      made with, the height of the block that made it, and a coinbase flag exactly if a coinbase made it. */
  lemma UnspentExactly(p: Params, b: BlockIndex, o: OutPoint)
    requires InTree(p, b) && ValidBranch(p, b)
    ensures var events, m := Events(b), UtxoAfter(p, b);
      var c := Maker(events, |events|, o);
      && (Avail(m, o) <==> c >= 0)
      && (Avail(m, o) ==>
            && c >= 0 && o.n < |events[c].tx.vout|
            && m[o.hash].vout[o.n] == events[c].tx.vout[o.n]
            && m[o.hash].nHeight == events[c].nHeight
            && m[o.hash].nVersion == events[c].tx.nVersion
            && (m[o.hash].fCoinBase <==> events[c].tx.IsCoinBase()))
  {
    hide UtxoAfter, Maker, Events, InTree, ValidBranch;
    RecordedAfter(p, b, o);
  }

  lemma RecordedAfter(p: Params, b: BlockIndex, o: OutPoint)
    requires InTree(p, b) && ValidBranch(p, b)
    ensures Recorded(Events(b), |Events(b)|, UtxoAfter(p, b), o)
  {
    hide EventOk, Recorded, UtxoAfter, Events, InTree, ValidBranch;
    forall j | 0 <= j < |Events(b)| ensures EventOk(p, Events(b), j) { BranchEventOk(p, b, j); }
    AllRecorded(p, Events(b), |Events(b)|, o);
    ReplayBranch(p, b);
  }

  lemma RecordedBefore(p: Params, b: BlockIndex, k: nat, o: OutPoint)
    requires InTree(p, b) && ValidBranch(p, b) && k < |Events(b)|
    ensures Recorded(Events(b), k, Replay(Events(b), k), o)
  {
    hide EventOk, Recorded, Events, InTree, ValidBranch, Replay;
    forall j | 0 <= j < k ensures EventOk(p, Events(b), j) { BranchEventOk(p, b, j); }
    AllRecorded(p, Events(b), k, o);
  }

  /** Whatever a transaction of a valid branch spends was made before it and not spent since; what a coinbase made is at
      least as many blocks below as coinbases take to mature. */
  lemma SpendsMadeAndMature(p: Params, b: BlockIndex, k: nat, i: nat)
    requires InTree(p, b) && ValidBranch(p, b) && k < |Events(b)|
    requires !Events(b)[k].tx.IsCoinBase() && i < |Events(b)[k].tx.vin|
    ensures var events := Events(b); var c := Maker(events, k, events[k].tx.vin[i].prevout);
      && 0 <= c < k
      && (events[c].tx.IsCoinBase() ==> events[k].nHeight - events[c].nHeight >= p.coinbaseMaturity)
  {
    hide Maker, Replay, Events, InTree, ValidBranch, Ready, WellFormedTx;
    var events := Events(b);
    var tx, o := events[k].tx, events[k].tx.vin[i].prevout;
    BranchEventOk(p, b, k);
    assert InputOk(p, Replay(events, k), tx.vin, i, events[k].nHeight);
    RecordedBefore(p, b, k, o);
  }

  /** Nothing is spent twice: between two spends of an output it was made anew. */
  lemma NoDoubleSpend(p: Params, b: BlockIndex, j: nat, k: nat, o: OutPoint)
    requires InTree(p, b) && ValidBranch(p, b) && j < k < |Events(b)|
    requires Spends(Events(b)[j], o) && Spends(Events(b)[k], o)
    ensures exists c :: j <= c < k && Makes(Events(b)[c], o)
  {
    hide Maker, Events, InTree, ValidBranch;
    var events := Events(b);
    var i :| 0 <= i < |events[k].tx.vin| && events[k].tx.vin[i].prevout == o;
    SpendsMadeAndMature(p, b, k, i);
    MakerIs(events, k, o);
    assert MadeAt(events, k, o, Maker(events, k, o));
  }

  /** What the first k inputs were made with. */
  ghost function MadeValue(events: seq<Event>, at: nat, vin: seq<TxIn>, k: nat): int
    requires at <= |events| && k <= |vin|
  {
    if k == 0 then 0
    else
      var o := vin[k - 1].prevout;
      var c := Maker(events, at, o);
      MadeValue(events, at, vin, k - 1)
      + if c >= 0 && o.n < |events[c].tx.vout| then events[c].tx.vout[o.n].nValue else 0
  }

  lemma {:induction false} ValueInMade(p: Params, b: BlockIndex, at: nat, vin: seq<TxIn>, k: nat)
    requires InTree(p, b) && ValidBranch(p, b) && at < |Events(b)| && k <= |vin|
    ensures ValueIn(Replay(Events(b), at), vin, k) == MadeValue(Events(b), at, vin, k)
  {
    hide Replay, Maker, Events, InTree, ValidBranch;
    if k > 0 {
      ValueInMade(p, b, at, vin, k - 1);
      RecordedBefore(p, b, at, vin[k - 1].prevout);
    }
  }

  /** No transaction but a coinbase pays out more than what it spends was made with. */
  lemma NothingFromNothing(p: Params, b: BlockIndex, k: nat)
    requires InTree(p, b) && ValidBranch(p, b) && k < |Events(b)| && !Events(b)[k].tx.IsCoinBase()
    ensures SumOuts(Events(b)[k].tx.vout) <= MadeValue(Events(b), k, Events(b)[k].tx.vin, |Events(b)[k].tx.vin|)
  {
    hide Replay, MadeValue, SumOuts, ValueIn, WellFormedTx, Ready, Events, InTree, ValidBranch;
    BranchEventOk(p, b, k);
    ValueInMade(p, b, k, Events(b)[k].tx.vin, |Events(b)[k].tx.vin|);
  }

  /** Every transaction of a valid branch: no larger than a block, with outputs of no negative value and together no more
      than the money there may be, no outpoint named twice; a coinbase's script has 2 to 100 bytes. */
  lemma TransactionsChecked(p: Params, b: BlockIndex, k: nat)
    requires InTree(p, b) && ValidBranch(p, b) && k < |Events(b)|
    ensures var tx := Events(b)[k].tx;
      && TxSize(tx) <= 1_000_000 && tx.vin != [] && tx.vout != []
      && (forall i :: 0 <= i < |tx.vout| ==> tx.vout[i].nValue >= 0)
      && SumOuts(tx.vout) <= 5_200_000_000_000_000
      && (forall i, j :: 0 <= i < j < |tx.vin| ==> tx.vin[i].prevout != tx.vin[j].prevout)
      && (tx.IsCoinBase() ==> 2 <= |tx.vin[0].scriptSig| <= 100)
      && (!tx.IsCoinBase() ==> forall i :: 0 <= i < |tx.vin| ==> !tx.vin[i].prevout.IsNull())
  {
    hide Replay, Ready, InputsOk, Events, InTree, ValidBranch, TxSize, SumOuts;
    BranchEventOk(p, b, k);
  }

  /** No transaction of a valid branch reuses a txid that still has an unspent output. */
  lemma TxidsNotReused(p: Params, b: BlockIndex, k: nat, n: nat)
    requires InTree(p, b) && ValidBranch(p, b) && k < |Events(b)|
    ensures var events := Events(b); var o := OutPoint(events[k].tx.hash, n);
      Maker(events, k, o) < 0 || Spends(events[k], o)
  {
    hide Replay, InputsOk, Events, InTree, ValidBranch, WellFormedTx, Maker, SpendInputs;
    BranchEventOk(p, b, k);
    var events := Events(b);
    var tx, m, o := events[k].tx, Replay(events, k), OutPoint(events[k].tx.hash, n);
    RecordedBefore(p, b, k, o);
    SpentByOne(m, Inputs(tx), |Inputs(tx)|, o);
    var spent := SpendInputs(m, Inputs(tx), |Inputs(tx)|);
    if Avail(spent, o) { AvailLive(spent, o); }
  }

  /** Every block of a valid branch keeps the limits, has one coinbase, in front, and claims no more than subsidy and
      fees. */
  lemma BlocksChecked(p: Params, b: BlockIndex)
    requires InTree(p, b) && ValidBranch(p, b) && b.pprev.Some?
    ensures var vtx, m := b.block.vtx, UtxoBefore(p, b);
      && BlockSize(b.block) <= 1_000_000 && SigOpsOf(m, vtx, |vtx|, b.nHeight) <= 20_000
      && vtx != [] && (forall i :: 0 <= i < |vtx| ==> (vtx[i].IsCoinBase() <==> i == 0))
      && (forall i, j :: 0 <= i < j < |vtx| ==> vtx[i].hash != vtx[j].hash)
      && vtx[0].vout != []
      && vtx[0].vout[0].nValue <= GetBlockValue(b.nHeight, FeesOf(m, vtx, |vtx|, b.nHeight))
  {
    hide BlockSize, SigOpsOf, FeesOf, UtxoBefore, GetBlockValue, AllInputsOk, LottoResultOk;
    HasCoinbase(b.block.vtx);
  }
}
