/** Choosing transactions for a new block and filling in its lottery header (src/miner.cpp). */
module Miner {
  import opened Core
  import opened Coins
  import opened Utxo
  import opened CoinsView
  import opened Blocks
  import opened SigOps
  import opened BlockConnect
  import opened Arith

  /** Settings, and as functions of a transaction what this model does not compute: its priority and fee
      per kilobyte, and finality at the new height. */
  datatype Policy = Policy(
    priority: Tx -> real, feePerKb: Tx -> real, allowFree: real -> bool, minRelayTxFee: real,
    isFinal: Tx -> bool,
    blockMaxSize: nat, blockPrioritySize: nat, blockMinSize: nat)

  type Pool = map<Uint256, Tx>

  /** Pooled transactions are checked ones under their txids, and every input names a transaction of the chain
      or of the pool. */
  ghost predicate PoolOk(pool: Pool, m: CoinMap) {
    forall h :: h in pool ==> pool[h].hash == h && WellFormedTx(pool[h]) && Rooted(pool, m, pool[h])
  }

  ghost predicate Rooted(pool: Pool, m: CoinMap, tx: Tx) {
    forall i :: 0 <= i < |tx.vin| ==> tx.vin[i].prevout.hash in m || tx.vin[i].prevout.hash in pool
  }

  /** The unconfirmed parents among the first k inputs. */
  function Missing(m: CoinMap, vin: seq<TxIn>, k: nat): set<Uint256>
    requires k <= |vin|
  {
    if k == 0 then {}
    else Missing(m, vin, k - 1) + if vin[k - 1].prevout.hash in m then {} else {vin[k - 1].prevout.hash}
  }

  function Parents(m: CoinMap, tx: Tx): set<Uint256> {
    Missing(m, tx.vin, |tx.vin|)
  }

  ghost predicate Eligible(q: Policy, pool: Pool, tx: Tx) {
    tx.hash in pool && pool[tx.hash] == tx && !tx.IsCoinBase() && q.isFinal(tx)
  }

  /** A transaction that waits for others of the pool. */
  datatype COrphan = COrphan(tx: Tx, setDependsOn: set<Uint256>)

  ghost predicate NoRepeats(s: seq<Tx>) {
    forall i, j :: 0 <= i < j < |s| ==> s[i] != s[j]
  }

  // ---- collecting the pool ----

  /** Which transactions wait for a txid: exactly the orphans that have it as a parent. */
  ghost predicate DependersOk(m: CoinMap, orphans: seq<COrphan>, mapDependers: map<Uint256, seq<nat>>) {
    forall h, i: nat :: Listed(mapDependers, h, i) <==> i < |orphans| && h in Parents(m, orphans[i].tx)
  }

  predicate Listed(mapDependers: map<Uint256, seq<nat>>, h: Uint256, i: nat) {
    h in mapDependers && i in mapDependers[h]
  }

  /** The waiting transactions, none of them twice. */
  ghost predicate OrphansOk(q: Policy, pool: Pool, m: CoinMap, orphans: seq<COrphan>) {
    && (forall i, j :: 0 <= i < j < |orphans| ==> orphans[i].tx != orphans[j].tx)
    && (forall i :: 0 <= i < |orphans| ==> Eligible(q, pool, orphans[i].tx) && Parents(m, orphans[i].tx) != {})
  }

  /** Where everything stands: what is queued or was taken off the queue is what is eligible and has all its
      unconfirmed parents among the added txids; what else is eligible waits for the rest of them. */
  ghost predicate QueueOk(q: Policy, pool: Pool, m: CoinMap, orphans: seq<COrphan>, queue: seq<Tx>,
                          taken: set<Tx>, added: set<Uint256>) {
    && NoRepeats(queue)
    && (forall tx :: tx in queue ==> tx !in taken && Eligible(q, pool, tx) && Parents(m, tx) <= added)
    && (forall tx :: tx in taken ==> Eligible(q, pool, tx) && Parents(m, tx) <= added)
    && (forall h :: h in pool && Eligible(q, pool, pool[h]) ==>
          pool[h] in queue || pool[h] in taken || Waits(orphans, pool[h]))
    && (forall i :: 0 <= i < |orphans| ==> orphans[i].setDependsOn == Parents(m, orphans[i].tx) - added)
    && (forall i :: 0 <= i < |orphans| ==>
          (orphans[i].setDependsOn == {} <==> orphans[i].tx in queue || orphans[i].tx in taken))
  }

  ghost predicate Waits(orphans: seq<COrphan>, tx: Tx) {
    exists i :: 0 <= i < |orphans| && orphans[i].tx == tx
  }

  /** mapDependers[prev].push_back(id) */
  function PushBack(mapDependers: map<Uint256, seq<nat>>, prev: Uint256, id: nat): map<Uint256, seq<nat>> {
    var list: seq<nat> := if prev in mapDependers then mapDependers[prev] else [];
    var longer: seq<nat> := list + [id];
    mapDependers[prev := longer]
  }

  lemma ListMore(dep: map<Uint256, seq<nat>>, prev: Uint256, id: nat)
    ensures forall h, i: nat ::
      Listed(PushBack(dep, prev, id), h, i) <==> Listed(dep, h, i) || (h == prev && i == id)
  {
    var dep' := PushBack(dep, prev, id);
    forall h, i: nat ensures Listed(dep', h, i) <==> Listed(dep, h, i) || (h == prev && i == id) {
      if h == prev {
        var longer := dep'[prev];
        assert longer[|longer| - 1] == id;
        if prev in dep { assert longer == dep[prev] + [id]; }
      }
    }
  }

  /** The unconfirmed parents of one transaction; id is entered under each of them. */
  method FindParents(tx: Tx, id: nat, view: CCoinsViewCache, before: map<Uint256, seq<nat>>)
    returns (setDependsOn: set<Uint256>, mapDependers: map<Uint256, seq<nat>>)
    requires view.Valid()
    modifies view.Repr
    ensures view.OnlyFilled() && setDependsOn == Parents(view.Map(), tx)
    ensures forall h, i: nat :: Listed(mapDependers, h, i) <==> Listed(before, h, i) || (i == id && h in setDependsOn)
  {
    setDependsOn, mapDependers := {}, before;
    for k := 0 to |tx.vin|
      invariant view.OnlyFilled() && setDependsOn == Missing(view.Map(), tx.vin, k)
      invariant forall h, i: nat ::
        Listed(mapDependers, h, i) <==> Listed(before, h, i) || (i == id && h in setDependsOn)
    {
      var prev := tx.vin[k].prevout.hash;
      var have := view.HaveCoins(prev);
      if !have {
        ListMore(mapDependers, prev, id);
        hide Listed, PushBack;
        mapDependers := PushBack(mapDependers, prev, id);
        setDependsOn := setDependsOn + {prev};
      }
    }
  }

  /** The pool sorted into what can be taken at once and what waits. */
  ghost predicate Collected(q: Policy, pool: Pool, m: CoinMap, todo: set<Uint256>, queue: seq<Tx>,
                            orphans: seq<COrphan>, mapDependers: map<Uint256, seq<nat>>) {
    && todo <= pool.Keys
    && NoRepeats(queue) && OrphansOk(q, pool, m, orphans) && DependersOk(m, orphans, mapDependers)
    && (forall tx :: tx in queue ==> Eligible(q, pool, tx) && tx.hash !in todo && Parents(m, tx) == {})
    && (forall i :: 0 <= i < |orphans| ==>
          orphans[i].tx.hash !in todo && orphans[i].setDependsOn == Parents(m, orphans[i].tx))
    && (forall h :: h in pool && h !in todo && Eligible(q, pool, pool[h]) ==>
          pool[h] in queue || Waits(orphans, pool[h]))
  }

  lemma CollectNone(q: Policy, pool: Pool, m: CoinMap, todo: set<Uint256>, queue: seq<Tx>, orphans: seq<COrphan>,
                    dep: map<Uint256, seq<nat>>, h: Uint256)
    requires Collected(q, pool, m, todo, queue, orphans, dep) && h in todo && !Eligible(q, pool, pool[h])
    ensures Collected(q, pool, m, todo - {h}, queue, orphans, dep)
  {
  }

  lemma CollectFree(q: Policy, pool: Pool, m: CoinMap, todo: set<Uint256>, queue: seq<Tx>, orphans: seq<COrphan>,
                    dep: map<Uint256, seq<nat>>, h: Uint256)
    requires Collected(q, pool, m, todo, queue, orphans, dep) && h in todo
    requires Eligible(q, pool, pool[h]) && pool[h].hash == h && Parents(m, pool[h]) == {}
    ensures Collected(q, pool, m, todo - {h}, queue + [pool[h]], orphans, dep)
  {
    var longer := queue + [pool[h]];
    assert longer[|queue|] == pool[h];
    assert pool[h] !in queue;
    forall tx | tx in longer ensures Eligible(q, pool, tx) && tx.hash !in todo - {h} && Parents(m, tx) == {} {
      assert tx in queue || tx == pool[h];
    }
  }

  lemma CollectWaiting(q: Policy, pool: Pool, m: CoinMap, todo: set<Uint256>, queue: seq<Tx>, orphans: seq<COrphan>,
                       dep: map<Uint256, seq<nat>>, h: Uint256, dep': map<Uint256, seq<nat>>)
    requires Collected(q, pool, m, todo, queue, orphans, dep) && h in todo
    requires Eligible(q, pool, pool[h]) && pool[h].hash == h && Parents(m, pool[h]) != {}
    requires forall k, i: nat ::
      Listed(dep', k, i) <==> Listed(dep, k, i) || (i == |orphans| && k in Parents(m, pool[h]))
    ensures Collected(q, pool, m, todo - {h}, queue, orphans + [COrphan(pool[h], Parents(m, pool[h]))], dep')
  {
    var longer := orphans + [COrphan(pool[h], Parents(m, pool[h]))];
    forall tx | Waits(orphans, tx) ensures Waits(longer, tx) {
      var i :| 0 <= i < |orphans| && orphans[i].tx == tx;
      assert longer[i].tx == tx;
    }
    assert longer[|orphans|].tx == pool[h];
  }

  /** Sort the pool; mempool order is any order. */
  method Collect(q: Policy, pool: Pool, view: CCoinsViewCache)
    returns (queue: seq<Tx>, orphans: seq<COrphan>, mapDependers: map<Uint256, seq<nat>>)
    requires view.Valid() && PoolOk(pool, view.Map())
    modifies view.Repr
    ensures view.OnlyFilled()
    ensures Collected(q, pool, view.Map(), {}, queue, orphans, mapDependers)
  {
    hide Collected, Parents, Rooted;
    ghost var m := view.Map();
    queue, orphans, mapDependers := [], [], map[];
    var todo := pool.Keys;
    CollectStart(q, pool, m);
    while todo != {}
      invariant view.OnlyFilled() && todo <= pool.Keys
      invariant Collected(q, pool, m, todo, queue, orphans, mapDependers)
      decreases todo
    {
      var h :| h in todo;
      var tx := pool[h];
      if tx.IsCoinBase() || !q.isFinal(tx) {
        CollectNone(q, pool, m, todo, queue, orphans, mapDependers, h);
      } else {
        var setDependsOn, dep := FindParents(tx, |orphans|, view, mapDependers);
        if setDependsOn != {} {
          CollectWaiting(q, pool, m, todo, queue, orphans, mapDependers, h, dep);
          orphans := orphans + [COrphan(tx, setDependsOn)];
          mapDependers := dep;
        } else {
          CollectSame(q, pool, m, todo, queue, orphans, mapDependers, dep);
          CollectFree(q, pool, m, todo, queue, orphans, dep, h);
          mapDependers := dep;
          queue := queue + [tx];
        }
      }
      todo := todo - {h};
    }
  }

  lemma CollectSame(q: Policy, pool: Pool, m: CoinMap, todo: set<Uint256>, queue: seq<Tx>, orphans: seq<COrphan>,
                    dep: map<Uint256, seq<nat>>, dep': map<Uint256, seq<nat>>)
    requires Collected(q, pool, m, todo, queue, orphans, dep)
    requires forall k, i: nat :: Listed(dep', k, i) <==> Listed(dep, k, i)
    ensures Collected(q, pool, m, todo, queue, orphans, dep')
  {
  }

  lemma CollectStart(q: Policy, pool: Pool, m: CoinMap)
    ensures Collected(q, pool, m, pool.Keys, [], [], map[])
  {
  }

  // ---- the queue ----

  lemma QueueStart(q: Policy, pool: Pool, m: CoinMap, queue: seq<Tx>, orphans: seq<COrphan>,
                   dep: map<Uint256, seq<nat>>)
    requires Collected(q, pool, m, {}, queue, orphans, dep)
    ensures QueueOk(q, pool, m, orphans, queue, {}, {}) && OrphansOk(q, pool, m, orphans)
    ensures DependersOk(m, orphans, dep)
  {
  }

  /** s without its element at i. */
  function Without(s: seq<Tx>, i: nat): (r: seq<Tx>)
    requires i < |s|
  {
    s[..i] + s[i + 1..]
  }

  lemma WithoutFacts(s: seq<Tx>, i: nat)
    requires i < |s| && NoRepeats(s)
    ensures NoRepeats(Without(s, i)) && s[i] !in Without(s, i)
    ensures forall tx :: tx in Without(s, i) <==> tx in s && tx != s[i]
  {
    var r := Without(s, i);
    forall tx | tx in s && tx != s[i] ensures tx in r {
      var k :| 0 <= k < |s| && s[k] == tx;
      assert r[if k < i then k else k - 1] == tx;
    }
  }

  lemma Popped(q: Policy, pool: Pool, m: CoinMap, orphans: seq<COrphan>, queue: seq<Tx>, taken: set<Tx>,
               added: set<Uint256>, i: nat)
    requires QueueOk(q, pool, m, orphans, queue, taken, added) && i < |queue|
    ensures QueueOk(q, pool, m, orphans, Without(queue, i), taken + {queue[i]}, added)
    ensures queue[i] !in taken && Eligible(q, pool, queue[i]) && Parents(m, queue[i]) <= added
  {
    WithoutFacts(queue, i);
    hide Without, NoRepeats, Eligible, Parents;
  }

  /** Whether the heap order puts b before a. */
  predicate Below(q: Policy, byFee: bool, a: Tx, b: Tx) {
    if byFee then
      q.feePerKb(a) < q.feePerKb(b) || (q.feePerKb(a) == q.feePerKb(b) && q.priority(a) < q.priority(b))
    else
      q.priority(a) < q.priority(b) || (q.priority(a) == q.priority(b) && q.feePerKb(a) < q.feePerKb(b))
  }

  /** The front of the heap. */
  method Front(q: Policy, byFee: bool, queue: seq<Tx>) returns (i: nat)
    requires queue != []
    ensures i < |queue| && forall j :: 0 <= j < |queue| ==> !Below(q, byFee, queue[i], queue[j])
  {
    i := 0;
    for k := 1 to |queue|
      invariant i < k && forall j :: 0 <= j < k ==> !Below(q, byFee, queue[i], queue[j])
    {
      if Below(q, byFee, queue[i], queue[k]) { i := k; }
    }
  }

  /** An orphan that no longer waits for hash. */
  function Waiting(o: COrphan, hash: Uint256): COrphan {
    o.(setDependsOn := o.setDependsOn - {hash})
  }

  /** Halfway through the list of those that wait for hash: the ones before k no longer do. */
  ghost predicate Releasing(orphans0: seq<COrphan>, orphans: seq<COrphan>, queue0: seq<Tx>, queue: seq<Tx>,
                            list: seq<nat>, k: nat, hash: Uint256)
    requires k <= |list|
  {
    && |orphans| == |orphans0|
    && (forall i :: 0 <= i < |orphans| ==>
          orphans[i] == if i in list[..k] then Waiting(orphans0[i], hash) else orphans0[i])
    && NoRepeats(queue)
    && (forall tx :: tx in queue0 ==> tx in queue)
    && (forall tx :: tx in queue ==> tx in queue0 || Freed(orphans0, list, k, hash, tx))
    && (forall i :: 0 <= i < |orphans0| && i in list[..k] && Waiting(orphans0[i], hash).setDependsOn == {} ==>
          orphans0[i].tx in queue)
  }

  ghost predicate Freed(orphans0: seq<COrphan>, list: seq<nat>, k: nat, hash: Uint256, tx: Tx)
    requires k <= |list|
  {
    exists i :: 0 <= i < |orphans0| && i in list[..k] && orphans0[i].tx == tx
      && Waiting(orphans0[i], hash).setDependsOn == {}
  }

  /** Those in the list wait for hash and are not queued. */
  ghost predicate Releasable(orphans0: seq<COrphan>, queue0: seq<Tx>, list: seq<nat>, hash: Uint256) {
    && NoRepeats(queue0)
    && (forall i, j :: 0 <= i < j < |orphans0| ==> orphans0[i].tx != orphans0[j].tx)
    && forall i :: i in list ==>
         i < |orphans0| && hash in orphans0[i].setDependsOn && orphans0[i].tx !in queue0
  }

  lemma ReleaseNext(orphans0: seq<COrphan>, orphans: seq<COrphan>, queue0: seq<Tx>, queue: seq<Tx>,
                    list: seq<nat>, k: nat, hash: Uint256)
    requires Releasable(orphans0, queue0, list, hash) && k < |list|
    requires Releasing(orphans0, orphans, queue0, queue, list, k, hash)
    ensures list[k] < |orphans|
    ensures var o := orphans[list[k]];
      if o.setDependsOn == {} then Releasing(orphans0, orphans, queue0, queue, list, k + 1, hash)
      else
        var orphans' := orphans[list[k] := Waiting(o, hash)];
        Releasing(orphans0, orphans', queue0,
                  if Waiting(o, hash).setDependsOn == {} then queue + [o.tx] else queue, list, k + 1, hash)
  {
    var i := list[k];
    assert i in list && list[..k + 1] == list[..k] + [i];
    forall tx | Freed(orphans0, list, k, hash, tx) ensures Freed(orphans0, list, k + 1, hash, tx) {
      var j :| 0 <= j < |orphans0| && j in list[..k] && orphans0[j].tx == tx
        && Waiting(orphans0[j], hash).setDependsOn == {};
      assert j in list[..k + 1];
    }
    var o := orphans[i];
    if i in list[..k] {
      assert Waiting(o, hash) == o;
    } else if Waiting(o, hash).setDependsOn == {} {
      assert o.tx !in queue;
      assert (queue + [o.tx])[|queue|] == o.tx;
      assert Freed(orphans0, list, k + 1, hash, o.tx);
    }
  }

  /** Let go of those that wait for hash; the ones that wait for nothing more are queued. */
  method Release(orphans0: seq<COrphan>, queue0: seq<Tx>, list: seq<nat>, hash: Uint256)
    returns (orphans: seq<COrphan>, queue: seq<Tx>)
    requires Releasable(orphans0, queue0, list, hash)
    ensures Releasing(orphans0, orphans, queue0, queue, list, |list|, hash)
  {
    orphans, queue := orphans0, queue0;
    for k := 0 to |list|
      invariant Releasing(orphans0, orphans, queue0, queue, list, k, hash)
    {
      ReleaseNext(orphans0, orphans, queue0, queue, list, k, hash);
      hide Releasing;
      var i := list[k];
      if orphans[i].setDependsOn != {} {
        orphans := orphans[i := Waiting(orphans[i], hash)];
        if orphans[i].setDependsOn == {} {
          queue := queue + [orphans[i].tx];
        }
      }
    }
  }

  lemma CanRelease(q: Policy, pool: Pool, m: CoinMap, orphans: seq<COrphan>, queue: seq<Tx>, taken: set<Tx>,
                   added: set<Uint256>, list: seq<nat>, hash: Uint256)
    requires OrphansOk(q, pool, m, orphans) && QueueOk(q, pool, m, orphans, queue, taken, added) && hash !in added
    requires forall i: nat :: i in list <==> i < |orphans| && hash in Parents(m, orphans[i].tx)
    ensures Releasable(orphans, queue, list, hash)
  {
    hide Eligible, Parents;
  }

  lemma Released(q: Policy, pool: Pool, m: CoinMap, orphans: seq<COrphan>, orphans': seq<COrphan>, queue: seq<Tx>,
                 queue': seq<Tx>, taken: set<Tx>, added: set<Uint256>, list: seq<nat>, hash: Uint256)
    requires OrphansOk(q, pool, m, orphans) && QueueOk(q, pool, m, orphans, queue, taken, added) && hash !in added
    requires forall i: nat :: i in list <==> i < |orphans| && hash in Parents(m, orphans[i].tx)
    requires Releasing(orphans, orphans', queue, queue', list, |list|, hash)
    ensures QueueOk(q, pool, m, orphans', queue', taken, added + {hash})
    ensures |orphans'| == |orphans| && forall i :: 0 <= i < |orphans| ==> orphans'[i].tx == orphans[i].tx
  {
    hide Eligible, Parents;
    assert list[..|list|] == list;
    var more := added + {hash};
    forall i | 0 <= i < |orphans| ensures orphans'[i].tx == orphans[i].tx
      && orphans'[i].setDependsOn == Parents(m, orphans[i].tx) - more {}
    forall tx | tx in queue' ensures tx !in taken && Eligible(q, pool, tx) && Parents(m, tx) <= more {
      if tx !in queue {
        var i :| 0 <= i < |orphans| && i in list && orphans[i].tx == tx && Waiting(orphans[i], hash).setDependsOn == {};
        assert orphans[i].setDependsOn != {};
      }
    }
    forall tx | Waits(orphans, tx) ensures Waits(orphans', tx) {
      var i :| 0 <= i < |orphans| && orphans[i].tx == tx;
      assert orphans'[i].tx == tx;
    }
    forall i | 0 <= i < |orphans'|
      ensures orphans'[i].setDependsOn == {} <==> orphans'[i].tx in queue' || orphans'[i].tx in taken
    {
      if orphans'[i].tx in queue' && orphans'[i].tx !in queue {
        var j :| 0 <= j < |orphans| && j in list && orphans[j].tx == orphans'[i].tx
          && Waiting(orphans[j], hash).setDependsOn == {};
        assert j == i;
      }
    }
  }

  // ---- the chosen transactions ----

  function HashesOf(vtx: seq<Tx>, k: nat): set<Uint256>
    requires k <= |vtx|
  {
    if k == 0 then {} else HashesOf(vtx, k - 1) + {vtx[k - 1].hash}
  }

  /** At its place the transaction meets the input rules, and its unconfirmed parents come before it. */
  ghost predicate Placed(p: Params, q: Policy, pool: Pool, m: CoinMap, vtx: seq<Tx>, i: nat, h: nat)
    requires i < |vtx|
  {
    && Eligible(q, pool, vtx[i]) && BetsValid(p, h - 1, vtx[i])
    && TxOkAt(p, m, vtx, i, h)
    && Parents(m, vtx[i]) <= HashesOf(vtx, i)
  }

  ghost predicate Chosen(p: Params, q: Policy, pool: Pool, m: CoinMap, vtx: seq<Tx>, h: nat) {
    NoRepeats(vtx) && forall i :: 0 <= i < |vtx| ==> Placed(p, q, pool, m, vtx, i, h)
  }

  /** Functions of a prefix do not see what comes after it. */
  lemma {:induction false} PrefixSame(p: Params, q: Policy, m: CoinMap, vtx: seq<Tx>, tx: Tx, k: nat, h: nat)
    requires k <= |vtx|
    ensures ApplyTxs(m, vtx + [tx], k, h) == ApplyTxs(m, vtx, k, h)
    ensures FeesOf(m, vtx + [tx], k, h) == FeesOf(m, vtx, k, h)
    ensures BetsOfTxs(p, h - 1, vtx + [tx], k) == BetsOfTxs(p, h - 1, vtx, k)
    ensures HashesOf(vtx + [tx], k) == HashesOf(vtx, k)
    ensures SizeOf(vtx + [tx], k) == SizeOf(vtx, k) && SigOpsOf(m, vtx + [tx], k, h) == SigOpsOf(m, vtx, k, h)
  {
    hide ApplyTx, FeeOf, BetsOfTx, TxSize, TxSigOps;
    if k > 0 { PrefixSame(p, q, m, vtx, tx, k - 1, h); }
  }

  lemma ChosenNext(p: Params, q: Policy, pool: Pool, m: CoinMap, vtx: seq<Tx>, tx: Tx, h: nat)
    requires Chosen(p, q, pool, m, vtx, h) && tx !in vtx
    requires Eligible(q, pool, tx) && BetsValid(p, h - 1, tx) && Parents(m, tx) <= HashesOf(vtx, |vtx|)
    requires InputsOk(p, ApplyTxs(m, vtx, |vtx|, h), tx, h)
    ensures Chosen(p, q, pool, m, vtx + [tx], h)
  {
    hide InputsOk, Eligible, Parents, ApplyTxs, HashesOf;
    forall i | 0 <= i < |vtx + [tx]| ensures Placed(p, q, pool, m, vtx + [tx], i, h) {
      PrefixSame(p, q, m, vtx, tx, i, h);
      if i < |vtx| { assert Placed(p, q, pool, m, vtx, i, h); }
    }
  }

  lemma InputsMissing(p: Params, m: CoinMap, tx: Tx, h: nat)
    requires !tx.IsCoinBase() && !Utxo.HaveInputs(m, tx.vin)
    ensures !InputsOk(p, m, tx, h)
  {
    MissingInput(p, m, tx.vin, h);
  }

  lemma InputsReady(p: Params, m: CoinMap, tx: Tx, h: nat)
    requires WellFormedTx(tx) && InputsOk(p, m, tx, h)
    ensures SpendableInTurn(m, Inputs(tx))
  {
    InputsOkHave(p, m, tx, h);
    HaveInputsSpendable(m, Inputs(tx));
  }

  /** Whether a transaction meets the rules, with its fee and its signature operations. */
  method MayInclude(p: Params, tx: Tx, view: CCoinsViewCache, h: nat, nBlockSigOps: nat, nLegacySigOps: nat)
    returns (ok: bool, nTxFees: int, nTxSigOps: nat)
    requires view.Valid() && !tx.IsCoinBase() && nLegacySigOps == LegacySigOps(tx)
    modifies view.Repr
    ensures view.OnlyFilled() && view.SameBest()
    ensures ok <==>
      && InputsOk(p, view.Map(), tx, h) && BetsValid(p, h - 1, tx)
      && nBlockSigOps + TxSigOps(view.Map(), tx) < MAX_BLOCK_SIGOPS
    ensures ok ==> nTxSigOps == TxSigOps(view.Map(), tx) && nTxFees == FeeOf(view.Map(), tx)
  {
    hide LegacySigOps, P2SHSigOps, BetsValid, SumOuts, ValueIn, InputsOk;
    nTxFees, nTxSigOps := 0, 0;
    var have := view.HaveInputs(tx);
    if !have {
      InputsMissing(p, view.Map(), tx, h);
      return false, 0, 0;
    }
    var nValueIn := view.GetValueIn(tx);
    nTxFees := nValueIn - SumOuts(tx.vout);
    var n := GetP2SHSigOpCount(tx, view);
    nTxSigOps := nLegacySigOps + n;
    if nBlockSigOps + nTxSigOps >= MAX_BLOCK_SIGOPS { return false, 0, 0; }
    ok := CheckInputs(p, tx, view, h);
    if !ok { return; }
    ok := IsTransactionValid(p, h - 1, tx);
  }

  /** Spend the inputs of a transaction if it meets the rules. */
  method TryInclude(p: Params, tx: Tx, view: CCoinsViewCache, h: nat, nBlockSigOps: nat, nLegacySigOps: nat)
    returns (ok: bool, nTxFees: int, nTxSigOps: nat)
    requires view.Valid() && WellFormedTx(tx) && !tx.IsCoinBase() && nLegacySigOps == LegacySigOps(tx)
    modifies view.Repr
    ensures view.SameBest() && view.SameBelow()
    ensures ok <==>
      && InputsOk(p, old(view.Map()), tx, h) && BetsValid(p, h - 1, tx)
      && nBlockSigOps + TxSigOps(old(view.Map()), tx) < MAX_BLOCK_SIGOPS
    ensures ok ==> nTxSigOps == TxSigOps(old(view.Map()), tx)
    ensures ok ==> view.Map() == ApplyTx(old(view.Map()), tx, h) && nTxFees == FeeOf(old(view.Map()), tx)
    ensures !ok ==> view.Map() == old(view.Map())
  {
    hide TxSigOps, BetsValid, InputsOk, FeeOf, WellFormedTx, ApplyTx;
    ok, nTxFees, nTxSigOps := MayInclude(p, tx, view, h, nBlockSigOps, nLegacySigOps);
    if !ok { return; }
    InputsReady(p, view.Map(), tx, h);
    var txundo := UpdateCoins(tx, view, h);
  }

  /** The state of the selection loop. taken are the transactions that came off the queue, vtx those of them
      that were added. */
  ghost predicate Assembling(p: Params, q: Policy, pool: Pool, m: CoinMap, h: nat, orphans: seq<COrphan>,
                             mapDependers: map<Uint256, seq<nat>>, queue: seq<Tx>, taken: set<Tx>, vtx: seq<Tx>) {
    && Chosen(p, q, pool, m, vtx, h)
    && (forall i :: 0 <= i < |vtx| ==> vtx[i] in taken)
    && QueueOk(q, pool, m, orphans, queue, taken, HashesOf(vtx, |vtx|))
    && OrphansOk(q, pool, m, orphans) && DependersOk(m, orphans, mapDependers)
  }

  /** Sizes, fees and bets of what was added; a block with anything in it keeps the limits. */
  ghost predicate Totals(p: Params, q: Policy, m: CoinMap, h: nat, vtx: seq<Tx>, nBlockMaxSize: nat, nBlockSize: nat,
                         nBlockSigOps: nat, nFees: int, nCurBetValue: int) {
    && nBlockSize == 1000 + SizeOf(vtx, |vtx|) && (vtx != [] ==> nBlockSize < nBlockMaxSize)
    && nBlockSigOps == 100 + SigOpsOf(m, vtx, |vtx|, h) < MAX_BLOCK_SIGOPS
    && nFees == FeesOf(m, vtx, |vtx|, h) && nCurBetValue == BetsOfTxs(p, h - 1, vtx, |vtx|)
  }

  lemma TotalsNext(p: Params, q: Policy, m: CoinMap, h: nat, vtx: seq<Tx>, tx: Tx, nBlockMaxSize: nat, nBlockSize: nat,
                   nBlockSigOps: nat, nFees: int, nCurBetValue: int)
    requires Totals(p, q, m, h, vtx, nBlockMaxSize, nBlockSize, nBlockSigOps, nFees, nCurBetValue)
    requires nBlockSize + TxSize(tx) < nBlockMaxSize
    requires nBlockSigOps + TxSigOps(ApplyTxs(m, vtx, |vtx|, h), tx) < MAX_BLOCK_SIGOPS
    ensures Totals(p, q, m, h, vtx + [tx], nBlockMaxSize, nBlockSize + TxSize(tx),
                   nBlockSigOps + TxSigOps(ApplyTxs(m, vtx, |vtx|, h), tx),
                   nFees + FeeOf(ApplyTxs(m, vtx, |vtx|, h), tx), nCurBetValue + BetsOfTx(p, h - 1, tx))
    ensures ApplyTxs(m, vtx + [tx], |vtx| + 1, h) == ApplyTx(ApplyTxs(m, vtx, |vtx|, h), tx, h)
  {
    hide ApplyTx, FeeOf, BetsOfTx, TxSize, TxSigOps;
    PrefixSame(p, q, m, vtx, tx, |vtx|, h);
    assert (vtx + [tx])[|vtx|] == tx;
  }

  lemma {:induction false} HashesAre(vtx: seq<Tx>, k: nat, hash: Uint256)
    requires k <= |vtx|
    ensures hash in HashesOf(vtx, k) <==> exists i :: 0 <= i < k && vtx[i].hash == hash
  {
    if k > 0 { HashesAre(vtx, k - 1, hash); }
  }

  lemma FreshHash(p: Params, q: Policy, pool: Pool, m: CoinMap, vtx: seq<Tx>, taken: set<Tx>, tx: Tx, h: nat)
    requires Chosen(p, q, pool, m, vtx, h) && Eligible(q, pool, tx) && tx !in taken
    requires forall i :: 0 <= i < |vtx| ==> vtx[i] in taken
    ensures tx.hash !in HashesOf(vtx, |vtx|) && tx !in vtx
  {
    HashesAre(vtx, |vtx|, tx.hash);
    forall i | 0 <= i < |vtx| ensures vtx[i].hash != tx.hash {
      assert Placed(p, q, pool, m, vtx, i, h);
    }
  }

  /** Taking a transaction off the queue. */
  lemma AfterPop(p: Params, q: Policy, pool: Pool, m: CoinMap, h: nat, orphans: seq<COrphan>,
                 dep: map<Uint256, seq<nat>>, queue: seq<Tx>, taken: set<Tx>, vtx: seq<Tx>, i: nat)
    requires Assembling(p, q, pool, m, h, orphans, dep, queue, taken, vtx) && i < |queue|
    ensures Assembling(p, q, pool, m, h, orphans, dep, Without(queue, i), taken + {queue[i]}, vtx)
    ensures queue[i] !in taken && Eligible(q, pool, queue[i]) && Parents(m, queue[i]) <= HashesOf(vtx, |vtx|)
    ensures queue[i].hash !in HashesOf(vtx, |vtx|) && queue[i] !in vtx
  {
    hide QueueOk, OrphansOk, DependersOk, Without, Eligible, Parents, HashesOf, Chosen;
    Popped(q, pool, m, orphans, queue, taken, HashesOf(vtx, |vtx|), i);
    FreshHash(p, q, pool, m, vtx, taken, queue[i], h);
  }

  lemma DependersKept(q: Policy, pool: Pool, m: CoinMap, orphans: seq<COrphan>, orphans': seq<COrphan>,
                      dep: map<Uint256, seq<nat>>)
    requires OrphansOk(q, pool, m, orphans) && DependersOk(m, orphans, dep) && |orphans'| == |orphans|
    requires forall i :: 0 <= i < |orphans| ==> orphans'[i].tx == orphans[i].tx
    ensures OrphansOk(q, pool, m, orphans') && DependersOk(m, orphans', dep)
  {
  }

  function DependersOf(mapDependers: map<Uint256, seq<nat>>, hash: Uint256): seq<nat> {
    if hash in mapDependers then mapDependers[hash] else []
  }

  lemma DependersList(m: CoinMap, orphans: seq<COrphan>, dep: map<Uint256, seq<nat>>, hash: Uint256)
    requires DependersOk(m, orphans, dep)
    ensures forall i: nat :: i in DependersOf(dep, hash) <==> i < |orphans| && hash in Parents(m, orphans[i].tx)
  {
    forall i: nat ensures i in DependersOf(dep, hash) <==> Listed(dep, hash, i) {}
  }

  /** A taken transaction is added: those that waited only for it are queued. */
  method Add(p: Params, q: Policy, ghost pool: Pool, ghost m: CoinMap, h: nat, orphans0: seq<COrphan>,
             mapDependers: map<Uint256, seq<nat>>, queue0: seq<Tx>, ghost taken: set<Tx>, vtx0: seq<Tx>, tx: Tx)
    returns (orphans: seq<COrphan>, queue: seq<Tx>, vtx: seq<Tx>)
    requires Assembling(p, q, pool, m, h, orphans0, mapDependers, queue0, taken, vtx0)
    requires tx in taken && tx !in vtx0 && tx.hash !in HashesOf(vtx0, |vtx0|)
    requires Eligible(q, pool, tx) && BetsValid(p, h - 1, tx) && Parents(m, tx) <= HashesOf(vtx0, |vtx0|)
    requires InputsOk(p, ApplyTxs(m, vtx0, |vtx0|, h), tx, h)
    ensures vtx == vtx0 + [tx] && Assembling(p, q, pool, m, h, orphans, mapDependers, queue, taken, vtx)
  {
    hide QueueOk, OrphansOk, DependersOk, Eligible, Parents, Chosen, InputsOk, Releasable, Releasing, ApplyTxs;
    vtx := vtx0 + [tx];
    var hash := tx.hash;
    ghost var added := HashesOf(vtx0, |vtx0|);
    PrefixSame(p, q, m, vtx0, tx, |vtx0|, h);
    assert HashesOf(vtx, |vtx|) == added + {hash};
    hide HashesOf;
    ChosenNext(p, q, pool, m, vtx0, tx, h);
    var list := DependersOf(mapDependers, hash);
    DependersList(m, orphans0, mapDependers, hash);
    CanRelease(q, pool, m, orphans0, queue0, taken, added, list, hash);
    orphans, queue := Release(orphans0, queue0, list, hash);
    Released(q, pool, m, orphans0, orphans, queue0, queue, taken, added, list, hash);
    DependersKept(q, pool, m, orphans0, orphans, mapDependers);
  }

  // ---- building the block ----

  /** The largest block that is built: between 1000 bytes and 1000 below the limit. */
  function MaxSize(q: Policy): (s: nat)
    ensures 1000 <= s <= MAX_BLOCK_SIZE - 1000
  {
    Clamp(q.blockMaxSize, 1000, MAX_BLOCK_SIZE - 1000)
  }

  /** The variables of the selection loop. */
  datatype Selection = Selection(
    orphans: seq<COrphan>, queue: seq<Tx>, vtx: seq<Tx>,
    nBlockSize: nat, nBlockSigOps: nat, nFees: int, nCurBetValue: int, fSortedByFee: bool)

  ghost predicate Selecting(p: Params, q: Policy, pool: Pool, m: CoinMap, h: nat,
                            mapDependers: map<Uint256, seq<nat>>, s: Selection, taken: set<Tx>) {
    && Assembling(p, q, pool, m, h, s.orphans, mapDependers, s.queue, taken, s.vtx)
    && Totals(p, q, m, h, s.vtx, MaxSize(q), s.nBlockSize, s.nBlockSigOps, s.nFees, s.nCurBetValue)
  }

  lemma InPool(q: Policy, pool: Pool, tx: Tx)
    requires Eligible(q, pool, tx)
    ensures tx in pool.Values
  {
    assert pool[tx.hash] == tx;
  }

  // ---- what the selection comes to ----

  /** How far a selection has come: what was added, its size and signature operations with those kept free for header
      and coinbase, and the order in force. */
  datatype Picks = Picks(vtx: seq<Tx>, nBlockSize: nat, nBlockSigOps: nat, fSortedByFee: bool)

  function PicksOf(s: Selection): Picks {
    Picks(s.vtx, s.nBlockSize, s.nBlockSigOps, s.fSortedByFee)
  }

  /** Past the priority size, or out of high-priority transactions, the rest is sorted by fee. */
  predicate ByFeeFrom(q: Policy, s: Picks, tx: Tx) {
    || s.fSortedByFee
    || s.nBlockSize + TxSize(tx) >= Clamp(q.blockPrioritySize, 0, MaxSize(q)) || !q.allowFree(q.priority(tx))
  }

  /** The limits a transaction is held to before its inputs are looked at: size, signature operations, and no
      free ride past the minimum size. */
  predicate WithinLimits(q: Policy, s: Picks, tx: Tx) {
    && s.nBlockSize + TxSize(tx) < MaxSize(q)
    && s.nBlockSigOps + LegacySigOps(tx) < MAX_BLOCK_SIGOPS
    && !(s.fSortedByFee && q.feePerKb(tx) < q.minRelayTxFee
         && s.nBlockSize + TxSize(tx) >= Clamp(q.blockMinSize, 0, MaxSize(q)))
  }

  /** All a transaction must meet to be added. */
  ghost predicate Admitted(p: Params, q: Policy, m: CoinMap, h: nat, s: Picks, tx: Tx) {
    && WithinLimits(q, s, tx) && InputsOk(p, m, tx, h) && BetsValid(p, h - 1, tx)
    && s.nBlockSigOps + TxSigOps(m, tx) < MAX_BLOCK_SIGOPS
  }

  /** In terms of the settings: a transaction is added exactly if its inputs, bets and signature operations are in order,
      the block with it stays below the greatest size that is set, within 1000 bytes of either end, and, in the order of
      fees, it pays the relay fee or the block with it stays below the least size that is set. */
  lemma AdmittedWhen(p: Params, q: Policy, m: CoinMap, h: nat, s: Picks, tx: Tx)
    ensures var nSize := s.nBlockSize + TxSize(tx);
      Admitted(p, q, m, h, s, tx) <==>
        && InputsOk(p, m, tx, h) && BetsValid(p, h - 1, tx)
        && s.nBlockSigOps + TxSigOps(m, tx) < 20_000
        && (nSize < 1000 || (nSize < q.blockMaxSize && nSize < 999_000))
        && (!s.fSortedByFee || q.feePerKb(tx) >= q.minRelayTxFee || nSize < q.blockMinSize)
  {
  }

  /** The order turns to fees at the first transaction within the limits that has no high priority or would bring the
      block to the size kept for those. */
  lemma ByFeeWhen(q: Policy, s: Picks, tx: Tx)
    ensures ByFeeFrom(q, s, tx) <==>
      || s.fSortedByFee || !q.allowFree(q.priority(tx))
      || s.nBlockSize + TxSize(tx) >= q.blockPrioritySize || s.nBlockSize + TxSize(tx) >= MaxSize(q)
  {
  }

  /** a comes no later than b: by fee and then priority, or by priority and then fee. */
  predicate InFront(q: Policy, byFee: bool, a: Tx, b: Tx) {
    if byFee then
      q.feePerKb(a) > q.feePerKb(b) || (q.feePerKb(a) == q.feePerKb(b) && q.priority(a) >= q.priority(b))
    else
      q.priority(a) > q.priority(b) || (q.priority(a) == q.priority(b) && q.feePerKb(a) >= q.feePerKb(b))
  }

  lemma NotBelow(q: Policy, byFee: bool, a: Tx, b: Tx)
    ensures !Below(q, byFee, a, b) <==> InFront(q, byFee, a, b)
  {
  }

  /** One pick: the transaction is added if it is admitted, and the order may turn to fees. */
  ghost function AfterPick(p: Params, q: Policy, m: CoinMap, h: nat, s: Picks, tx: Tx): Picks {
    var m1 := ApplyTxs(m, s.vtx, |s.vtx|, h);
    var byFee := s.fSortedByFee || (WithinLimits(q, s, tx) && ByFeeFrom(q, s, tx));
    if Admitted(p, q, m1, h, s, tx)
    then Picks(s.vtx + [tx], s.nBlockSize + TxSize(tx), s.nBlockSigOps + TxSigOps(m1, tx), byFee)
    else s.(fSortedByFee := byFee)
  }

  /** Field by field, with the database as the block so far leaves it. */
  lemma PickMeans(p: Params, q: Policy, m: CoinMap, h: nat, s: Picks, tx: Tx, m1: CoinMap)
    requires m1 == ApplyTxs(m, s.vtx, |s.vtx|, h)
    ensures var s' := AfterPick(p, q, m, h, s, tx);
      && (s'.fSortedByFee <==> s.fSortedByFee || (WithinLimits(q, s, tx) && ByFeeFrom(q, s, tx)))
      && (Admitted(p, q, m1, h, s, tx) ==>
            && s'.vtx == s.vtx + [tx] && s'.nBlockSize == s.nBlockSize + TxSize(tx)
            && s'.nBlockSigOps == s.nBlockSigOps + TxSigOps(m1, tx))
      && (!Admitted(p, q, m1, h, s, tx) ==>
            s'.vtx == s.vtx && s'.nBlockSize == s.nBlockSize && s'.nBlockSigOps == s.nBlockSigOps)
  {
    hide ApplyTxs, TxSize, TxSigOps;
  }

  ghost function AfterPicks(p: Params, q: Policy, m: CoinMap, h: nat, picked: seq<Tx>): Picks
    decreases |picked|
  {
    if picked == [] then Picks([], 1000, 100, Clamp(q.blockPrioritySize, 0, MaxSize(q)) <= 0)
    else AfterPick(p, q, m, h, AfterPicks(p, q, m, h, picked[..|picked| - 1]), picked[|picked| - 1])
  }

  /** An eligible transaction that was not picked yet and whose inputs all name transactions of the chain or the block. */
  ghost predicate CanPick(q: Policy, pool: Pool, m: CoinMap, picked: set<Tx>, vtx: seq<Tx>, tx: Tx) {
    && Eligible(q, pool, tx) && tx !in picked
    && forall i :: 0 <= i < |tx.vin| ==> tx.vin[i].prevout.hash in m || Has(vtx, tx.vin[i].prevout.hash)
  }

  ghost predicate Has(vtx: seq<Tx>, hash: Uint256) {
    exists j :: 0 <= j < |vtx| && vtx[j].hash == hash
  }

  ghost function Members(picked: seq<Tx>): set<Tx> {
    set tx | tx in picked
  }

  /** The k-th pick could be made, and nothing else that could be came before it in the order then in force. */
  ghost predicate RightPick(p: Params, q: Policy, pool: Pool, m: CoinMap, h: nat, picked: seq<Tx>, k: nat)
    requires k < |picked|
  {
    var s := AfterPicks(p, q, m, h, picked[..k]);
    && CanPick(q, pool, m, Members(picked[..k]), s.vtx, picked[k])
    && forall other :: CanPick(q, pool, m, Members(picked[..k]), s.vtx, other) ==>
         InFront(q, s.fSortedByFee, picked[k], other)
  }

  ghost predicate Greedy(p: Params, q: Policy, pool: Pool, m: CoinMap, h: nat, picked: seq<Tx>) {
    forall k :: 0 <= k < |picked| ==> RightPick(p, q, pool, m, h, picked, k)
  }

  lemma GreedyNext(p: Params, q: Policy, pool: Pool, m: CoinMap, h: nat, picked: seq<Tx>, tx: Tx)
    requires Greedy(p, q, pool, m, h, picked)
    requires var s := AfterPicks(p, q, m, h, picked);
      && CanPick(q, pool, m, Members(picked), s.vtx, tx)
      && forall other :: CanPick(q, pool, m, Members(picked), s.vtx, other) ==> InFront(q, s.fSortedByFee, tx, other)
    ensures Greedy(p, q, pool, m, h, picked + [tx])
  {
    hide AfterPicks, CanPick, InFront, Members;
    var all := picked + [tx];
    assert all[..|picked|] == picked;
    forall k | 0 <= k < |all| ensures RightPick(p, q, pool, m, h, all, k) {
      if k < |picked| {
        assert all[..k] == picked[..k] && RightPick(p, q, pool, m, h, picked, k);
      }
    }
  }

  lemma {:induction false} MissingAre(m: CoinMap, vin: seq<TxIn>, k: nat, hash: Uint256)
    requires k <= |vin|
    ensures hash in Missing(m, vin, k) <==> hash !in m && exists i :: 0 <= i < k && vin[i].prevout.hash == hash
  {
    if k > 0 { MissingAre(m, vin, k - 1, hash); }
  }

  /** The unconfirmed parents of a transaction are the txids its inputs name that the chain does not have. */
  lemma ParentsAre(m: CoinMap, tx: Tx, hash: Uint256)
    ensures hash in Parents(m, tx) <==>
      hash !in m && exists i :: 0 <= i < |tx.vin| && tx.vin[i].prevout.hash == hash
  {
    MissingAre(m, tx.vin, |tx.vin|, hash);
  }

  lemma ParentsAdded(m: CoinMap, tx: Tx, vtx: seq<Tx>)
    ensures Parents(m, tx) <= HashesOf(vtx, |vtx|) <==>
      forall i :: 0 <= i < |tx.vin| ==> tx.vin[i].prevout.hash in m || Has(vtx, tx.vin[i].prevout.hash)
  {
    hide Parents, HashesOf;
    forall hash ensures hash in HashesOf(vtx, |vtx|) <==> Has(vtx, hash) { HashesAre(vtx, |vtx|, hash); }
    forall hash ensures hash in Parents(m, tx) <==>
      hash !in m && exists i :: 0 <= i < |tx.vin| && tx.vin[i].prevout.hash == hash
    {
      ParentsAre(m, tx, hash);
    }
    if Parents(m, tx) <= HashesOf(vtx, |vtx|) {
      forall i | 0 <= i < |tx.vin| ensures tx.vin[i].prevout.hash in m || Has(vtx, tx.vin[i].prevout.hash) {
        if tx.vin[i].prevout.hash !in m { assert tx.vin[i].prevout.hash in Parents(m, tx); }
      }
    }
  }

  /** The queue holds exactly what can be picked. */
  lemma QueueExact(p: Params, q: Policy, pool: Pool, m: CoinMap, h: nat, orphans: seq<COrphan>,
                   dep: map<Uint256, seq<nat>>, queue: seq<Tx>, taken: set<Tx>, vtx: seq<Tx>, tx: Tx)
    requires Assembling(p, q, pool, m, h, orphans, dep, queue, taken, vtx)
    ensures tx in queue <==> CanPick(q, pool, m, taken, vtx, tx)
  {
    hide Parents, HashesOf, Chosen, DependersOk, OrphansOk, Waits;
    ParentsAdded(m, tx, vtx);
    if CanPick(q, pool, m, taken, vtx, tx) && tx !in queue {
      assert pool[tx.hash] == tx;
      WaitsIn(orphans, tx);
    }
  }

  lemma WaitsIn(orphans: seq<COrphan>, tx: Tx)
    ensures Waits(orphans, tx) <==> exists i :: 0 <= i < |orphans| && orphans[i].tx == tx
  {
  }

  /** The checks of one pick, up to spending the inputs; the order may turn to fees on the way. */
  method Consider(p: Params, q: Policy, tx: Tx, view: CCoinsViewCache, h: nat, s: Picks)
    returns (ok: bool, byFee: bool, nTxFees: int, nTxSigOps: nat)
    requires view.Valid() && WellFormedTx(tx) && !tx.IsCoinBase()
    modifies view.Repr
    ensures view.SameBest() && view.SameBelow()
    ensures ok <==> Admitted(p, q, old(view.Map()), h, s, tx)
    ensures byFee <==> s.fSortedByFee || (WithinLimits(q, s, tx) && ByFeeFrom(q, s, tx))
    ensures ok ==> nTxSigOps == TxSigOps(old(view.Map()), tx) && nTxFees == FeeOf(old(view.Map()), tx)
    ensures view.Map() == if ok then ApplyTx(old(view.Map()), tx, h) else old(view.Map())
  {
    hide InputsOk, FeeOf, WellFormedTx, MaxSize, ApplyTx, TxSize, LegacySigOps, P2SHSigOps, BetsValid;
    ok, byFee, nTxFees, nTxSigOps := false, s.fSortedByFee, 0, 0;
    var nBlockMaxSize := MaxSize(q);
    var nBlockPrioritySize := Clamp(q.blockPrioritySize, 0, nBlockMaxSize);
    var nBlockMinSize := Clamp(q.blockMinSize, 0, nBlockMaxSize);
    var nTxSize := TxSize(tx);
    if s.nBlockSize + nTxSize >= nBlockMaxSize { return; }
    var nLegacySigOps := GetLegacySigOpCount(tx);
    if s.nBlockSigOps + nLegacySigOps >= MAX_BLOCK_SIGOPS { return; }
    if byFee && q.feePerKb(tx) < q.minRelayTxFee && s.nBlockSize + nTxSize >= nBlockMinSize { return; }
    if !byFee && (s.nBlockSize + nTxSize >= nBlockPrioritySize || !q.allowFree(q.priority(tx))) {
      byFee := true;
    }
    ok, nTxFees, nTxSigOps := TryInclude(p, tx, view, h, s.nBlockSigOps, nLegacySigOps);
  }

  /** The transaction at the front of the heap is taken off the queue; it is added exactly if it is admitted. */
  method SelectOne(p: Params, q: Policy, ghost pool: Pool, view: CCoinsViewCache, ghost m: CoinMap, h: nat,
                   mapDependers: map<Uint256, seq<nat>>, s0: Selection, ghost taken: set<Tx>)
    returns (s: Selection, ghost tx: Tx)
    requires view.Valid() && s0.queue != [] && Selecting(p, q, pool, m, h, mapDependers, s0, taken)
    requires view.Map() == ApplyTxs(m, s0.vtx, |s0.vtx|, h)
    requires forall k :: k in pool ==> WellFormedTx(pool[k])
    modifies view.Repr
    ensures view.SameBelow() && view.Map() == ApplyTxs(m, s.vtx, |s.vtx|, h)
    ensures tx !in taken && tx in pool.Values && Selecting(p, q, pool, m, h, mapDependers, s, taken + {tx})
    ensures tx in s0.queue && forall other :: other in s0.queue ==> !Below(q, s0.fSortedByFee, tx, other)
    ensures PicksOf(s) == AfterPick(p, q, m, h, PicksOf(s0), tx)
  {
    hide Assembling, Totals, InputsOk, BetsOfTx, FeeOf, Below, WellFormedTx, MaxSize, Without, Parents, HashesOf,
      ApplyTx, ApplyTxs, TxSize, LegacySigOps, P2SHSigOps, BetsValid;
    var top := Front(q, s0.fSortedByFee, s0.queue);
    var front := s0.queue[top];
    tx := front;
    AfterPop(p, q, pool, m, h, s0.orphans, mapDependers, s0.queue, taken, s0.vtx, top);
    InPool(q, pool, tx);
    s := s0.(queue := Without(s0.queue, top));
    var ok, byFee, nTxFees, nTxSigOps := Consider(p, q, front, view, h, PicksOf(s0));
    s := s.(fSortedByFee := byFee);
    if !ok { return; }
    TotalsNext(p, q, m, h, s.vtx, front, MaxSize(q), s.nBlockSize, s.nBlockSigOps, s.nFees, s.nCurBetValue);
    var orphans, queue, vtx := Add(p, q, pool, m, h, s.orphans, mapDependers, s.queue, taken + {tx}, s.vtx, front);
    var bets := GetLottoValueFromTx(p, h - 1, front);
    s := Selection(orphans, queue, vtx, s.nBlockSize + TxSize(front), s.nBlockSigOps + nTxSigOps,
                   s.nFees + nTxFees, s.nCurBetValue + bets, s.fSortedByFee);
  }

  lemma PoolFormed(pool: Pool, m: CoinMap)
    requires PoolOk(pool, m)
    ensures forall k :: k in pool ==> WellFormedTx(pool[k])
  {
  }

  /** The selection loop. */
  method SelectTransactions(p: Params, q: Policy, pool: Pool, view: CCoinsViewCache, h: nat)
    returns (s: Selection, ghost picked: seq<Tx>)
    requires view.Valid() && PoolOk(pool, view.Map())
    modifies view.Repr
    ensures view.SameBelow()
    ensures Greedy(p, q, pool, old(view.Map()), h, picked) && PicksOf(s) == AfterPicks(p, q, old(view.Map()), h, picked)
    ensures forall tx :: !CanPick(q, pool, old(view.Map()), Members(picked), s.vtx, tx)
    ensures Chosen(p, q, pool, old(view.Map()), s.vtx, h)
    ensures Totals(p, q, old(view.Map()), h, s.vtx, MaxSize(q), s.nBlockSize, s.nBlockSigOps, s.nFees, s.nCurBetValue)
  {
    hide Assembling, Totals, Chosen, Collected, PoolOk, WellFormedTx, MaxSize, Rooted, Greedy, CanPick, Members;
    ghost var m := view.Map();
    PoolFormed(pool, m);
    var queue, orphans, mapDependers := Collect(q, pool, view);
    s := Selection(orphans, queue, [], 1000, 100, 0, 0, Clamp(q.blockPrioritySize, 0, MaxSize(q)) <= 0);
    picked := [];
    NothingPicked(p, q, pool, m, h);
    SelectStart(p, q, pool, m, h, queue, orphans, mapDependers);
    while s.queue != []
      invariant view.SameBelow() && view.Map() == ApplyTxs(m, s.vtx, |s.vtx|, h)
      invariant Selecting(p, q, pool, m, h, mapDependers, s, Members(picked))
      invariant Greedy(p, q, pool, m, h, picked) && PicksOf(s) == AfterPicks(p, q, m, h, picked)
      decreases pool.Values - Members(picked)
    {
      hide Selecting, AfterPick, Below;
      ghost var s0 := s;
      ghost var tx;
      s, tx := SelectOne(p, q, pool, view, m, h, mapDependers, s, Members(picked));
      PickNext(p, q, pool, m, h, mapDependers, s0, picked, tx);
      MembersNext(picked, tx);
      picked := picked + [tx];
    }
    SelectEnd(p, q, pool, m, h, mapDependers, s, Members(picked));
  }

  lemma NothingPicked(p: Params, q: Policy, pool: Pool, m: CoinMap, h: nat)
    ensures Greedy(p, q, pool, m, h, []) && Members([]) == {}
  {
  }

  lemma MembersNext(picked: seq<Tx>, tx: Tx)
    ensures Members(picked + [tx]) == Members(picked) + {tx}
  {
  }

  /** The front of the queue is a right pick. */
  lemma PickNext(p: Params, q: Policy, pool: Pool, m: CoinMap, h: nat, dep: map<Uint256, seq<nat>>, s: Selection,
                 picked: seq<Tx>, tx: Tx)
    requires Selecting(p, q, pool, m, h, dep, s, Members(picked)) && PicksOf(s) == AfterPicks(p, q, m, h, picked)
    requires tx in s.queue && forall other :: other in s.queue ==> !Below(q, s.fSortedByFee, tx, other)
    requires Greedy(p, q, pool, m, h, picked)
    ensures Greedy(p, q, pool, m, h, picked + [tx])
    ensures AfterPicks(p, q, m, h, picked + [tx]) == AfterPick(p, q, m, h, PicksOf(s), tx)
  {
    hide Assembling, Totals, AfterPick, CanPick, Below, Members, Greedy, InFront;
    assert (picked + [tx])[..|picked|] == picked;
    QueueExact(p, q, pool, m, h, s.orphans, dep, s.queue, Members(picked), s.vtx, tx);
    forall other | CanPick(q, pool, m, Members(picked), s.vtx, other) ensures InFront(q, s.fSortedByFee, tx, other) {
      QueueExact(p, q, pool, m, h, s.orphans, dep, s.queue, Members(picked), s.vtx, other);
      NotBelow(q, s.fSortedByFee, tx, other);
    }
    GreedyNext(p, q, pool, m, h, picked, tx);
  }

  lemma SelectEnd(p: Params, q: Policy, pool: Pool, m: CoinMap, h: nat, mapDependers: map<Uint256, seq<nat>>,
                  s: Selection, taken: set<Tx>)
    requires Selecting(p, q, pool, m, h, mapDependers, s, taken) && s.queue == []
    ensures Chosen(p, q, pool, m, s.vtx, h) && forall tx :: !CanPick(q, pool, m, taken, s.vtx, tx)
    ensures Totals(p, q, m, h, s.vtx, MaxSize(q), s.nBlockSize, s.nBlockSigOps, s.nFees, s.nCurBetValue)
  {
    hide Chosen, Totals, CanPick, QueueOk, OrphansOk, DependersOk;
    forall tx ensures !CanPick(q, pool, m, taken, s.vtx, tx) {
      QueueExact(p, q, pool, m, h, s.orphans, mapDependers, s.queue, taken, s.vtx, tx);
    }
  }

  lemma SelectStart(p: Params, q: Policy, pool: Pool, m: CoinMap, h: nat, queue: seq<Tx>, orphans: seq<COrphan>,
                    dep: map<Uint256, seq<nat>>)
    requires Collected(q, pool, m, {}, queue, orphans, dep)
    ensures Assembling(p, q, pool, m, h, orphans, dep, queue, {}, [])
    ensures Totals(p, q, m, h, [], MaxSize(q), 1000, 100, 0, 0)
  {
    QueueStart(q, pool, m, queue, orphans, dep);
  }

  /** The coinbase in front adds no bets. */
  lemma {:induction false} BetsAfterCoinbase(p: Params, nTipHeight: int, coinbase: Tx, vtx: seq<Tx>, k: nat)
    requires coinbase.IsCoinBase() && k <= |vtx|
    ensures BetsOfTxs(p, nTipHeight, [coinbase] + vtx, k + 1) == BetsOfTxs(p, nTipHeight, vtx, k)
  {
    if k > 0 { BetsAfterCoinbase(p, nTipHeight, coinbase, vtx, k - 1); }
  }

  lemma TotalsMean(p: Params, q: Policy, m: CoinMap, h: nat, s: Selection)
    requires Totals(p, q, m, h, s.vtx, MaxSize(q), s.nBlockSize, s.nBlockSigOps, s.nFees, s.nCurBetValue)
    ensures s.nFees == FeesOf(m, s.vtx, |s.vtx|, h) && s.nCurBetValue == BetsOfTxs(p, h - 1, s.vtx, |s.vtx|)
  {
  }

  /** The id and key the new header carries, key 0 if it is unknown. */
  function KeyToUse(p: Params, prev: BlockIndex): (int, Uint256) {
    match GetLotteryKey(p, prev.nHeight)
    case None => (prev.nHeight / p.nIntervalLottery - 1, 0)
    case Some(known) => known
  }

  /** After a height that is no multiple of the lottery interval and a block that carried a real key, a key is
      needed; it may be unknown. */
  predicate KeyMissing(p: Params, prev: BlockIndex) {
    && prev.nHeight % p.nIntervalLottery != 0
    && prev.block.lottoHeader.uLottoKey != 0 && prev.block.lottoHeader.uLottoKey != 1
    && KeyToUse(p, prev).1 == 0
  }

  lemma NothingSummed()
    ensures SumOuts([]) == 0
  {
  }

  /** A key is missing within a round after a block with a real key, when the draw of the round that ended has none
      stored, or a stored 0. */
  lemma KeyMissingWhen(p: Params, prev: BlockIndex)
    ensures KeyMissing(p, prev) <==>
      && prev.nHeight % p.nIntervalLottery != 0 && prev.block.lottoHeader.uLottoKey > 1
      && prev.nHeight > 2 * p.nIntervalLottery
      && var stored := p.storedKey(prev.nHeight / p.nIntervalLottery - 1); stored.None? || stored.value == 0
  {
  }

  method ValueOfOuts(vTxOut: seq<TxOut>) returns (txOutValue: int)
    ensures txOutValue == SumOuts(vTxOut)
  {
    txOutValue := 0;
    for i := 0 to |vTxOut|
      invariant txOutValue == SumOuts(vTxOut[..i])
    {
      assert vTxOut[..i + 1][..i] == vTxOut[..i];
      txOutValue := txOutValue + vTxOut[i].nValue;
    }
    assert vTxOut[..|vTxOut|] == vTxOut;
  }

  /** Coinbase and lottery header around chosen transactions; the coinbase's txid is left open as 0. */
  method FillIn(p: Params, prev: BlockIndex, vtx: seq<Tx>, nFees: int, nCurBetValue: int, scriptPubKeyIn: Script,
                nID: int, uLottoKey: Uint256, nBitcoinHashes: nat)
    returns (block: Block)
    requires nCurBetValue == BetsOfTxs(p, prev.nHeight, vtx, |vtx|) && !KeyMissing(p, prev)
    requires (nID, uLottoKey) == KeyToUse(p, prev)
    ensures Built(p, prev, block, vtx, nFees, scriptPubKeyIn)
    ensures Filled(p, prev, block, vtx, scriptPubKeyIn, nFees, nBitcoinHashes)
  {
    hide SumOuts, BetsOfTxs, GetBlockValue;
    NothingSummed();
    var vTxOut, llRewards := DrawLottery(p, prev.block.lottoHeader.llPool, prev, nID, uLottoKey);
    var txOutValue := ValueOfOuts(vTxOut);
    var coinbase := Tx(0, 1, [TxIn(OutPoint(0, NULL_INDEX), [0, 0])],
                       [TxOut(GetBlockValue(prev.nHeight + 1, nFees), scriptPubKeyIn)] + vTxOut);
    BetsAfterCoinbase(p, prev.nHeight, coinbase, vtx, |vtx|);
    block := Block(0, [coinbase] + vtx,
                   LottoHeader(prev.block.lottoHeader.llPool - txOutValue + nCurBetValue, nID, uLottoKey,
                               nBitcoinHashes));
    assert PayoutOuts(block) == vTxOut;
  }

  /** What the new block holds: the fixed pair of id and key up to two intervals, later the stored key of the round
      that ended, 0 if there is none; with a key, after two intervals, the winners drawn from the parent's pool. */
  ghost predicate Filled(p: Params, prev: BlockIndex, block: Block, chosen: seq<Tx>, scriptPubKeyIn: Script,
                         nFees: int, nBitcoinHashes: nat)
  {
    var head, interval := block.lottoHeader, p.nIntervalLottery;
    && |block.vtx| == 1 + |chosen| && block.vtx[1..] == chosen && block.vtx[0].vout != []
    && var (coinbase, pool, round) := (block.vtx[0], prev.block.lottoHeader.llPool, prev.nHeight / interval - 1);
       var payouts := coinbase.vout[1..];
    && coinbase.vin == [TxIn(OutPoint(0, NULL_INDEX), [0, 0])]
    && coinbase.vout[0] == TxOut(GetBlockValue(prev.nHeight + 1, nFees), scriptPubKeyIn)
    && (if prev.nHeight <= 2 * interval then head.nLottoID == 0 && head.uLottoKey == 1
        else
          && head.nLottoID == round
          && head.uLottoKey == if p.storedKey(round).Some? then p.storedKey(round).value else 0)
    && payouts == (if prev.nHeight >= 2 * interval && head.uLottoKey != 0
                   then p.winners(pool, prev, head.nLottoID, head.uLottoKey) else [])
    && head.llPool == pool - SumOuts(payouts) + BetsOfTxs(p, prev.nHeight, chosen, |chosen|)
    && head.nBitcoinHashes == nBitcoinHashes
  }

  /** A coinbase claiming the subsidy and all fees, before the chosen transactions; it and the header pass the
      pool and payout rules. */
  predicate Built(p: Params, prev: BlockIndex, block: Block, chosen: seq<Tx>, nFees: int, scriptPubKeyIn: Script) {
    && block.vtx != [] && block.vtx[1..] == chosen && block.vtx[0].IsCoinBase() && block.vtx[0].vout != []
    && block.vtx[0].vout[0] == TxOut(GetBlockValue(prev.nHeight + 1, nFees), scriptPubKeyIn)
    && LottoResultOk(p, prev, block)
  }

  /** The block after prev for a miner's script: nothing if the lottery key it needs is unknown. */
  method CreateNewBlock(p: Params, q: Policy, pool: Pool, prev: BlockIndex, pcoinsTip: CCoinsViewCache,
                        scriptPubKeyIn: Script, nBitcoinHashes: nat)
    returns (block: Option<Block>, ghost chosen: seq<Tx>, ghost nFees: int, ghost picked: seq<Tx>)
    requires pcoinsTip.Valid() && PoolOk(pool, pcoinsTip.Map())
    modifies pcoinsTip.Repr
    ensures pcoinsTip.Map() == old(pcoinsTip.Map())
    ensures Greedy(p, q, pool, old(pcoinsTip.Map()), prev.nHeight + 1, picked)
    ensures chosen == AfterPicks(p, q, old(pcoinsTip.Map()), prev.nHeight + 1, picked).vtx
    ensures forall tx :: !CanPick(q, pool, old(pcoinsTip.Map()), Members(picked), chosen, tx)
    ensures Chosen(p, q, pool, old(pcoinsTip.Map()), chosen, prev.nHeight + 1)
    ensures nFees == FeesOf(old(pcoinsTip.Map()), chosen, |chosen|, prev.nHeight + 1)
    ensures block.None? <==> KeyMissing(p, prev)
    ensures block.Some? ==> Built(p, prev, block.value, chosen, nFees, scriptPubKeyIn)
    ensures block.Some? ==> Filled(p, prev, block.value, chosen, scriptPubKeyIn, nFees, nBitcoinHashes)
  {
    hide Chosen, Greedy, CanPick, AfterPicks, Totals, PoolOk, FeesOf, BetsOfTxs, Built, Filled;
    var view := new CCoinsViewCache.OnCache(pcoinsTip);
    var s;
    s, picked := SelectTransactions(p, q, pool, view, prev.nHeight + 1);
    chosen, nFees := s.vtx, s.nFees;
    TotalsMean(p, q, old(pcoinsTip.Map()), prev.nHeight + 1, s);
    var known := GetLotteryKey(p, prev.nHeight);
    var nID, uLottoKey := if known.Some? then known.value.0 else prev.nHeight / p.nIntervalLottery - 1,
                          if known.Some? then known.value.1 else 0;
    var prevKey := prev.block.lottoHeader.uLottoKey;
    if prev.nHeight % p.nIntervalLottery != 0 && prevKey != 0 && prevKey != 1 && uLottoKey == 0 {
      return None, chosen, nFees, picked;
    }
    var filled := FillIn(p, prev, s.vtx, s.nFees, s.nCurBetValue, scriptPubKeyIn, nID, uLottoKey,
                         nBitcoinHashes);
    block := Some(filled);
  }

  // ---- what is built is accepted ----

  /** A transaction has nothing to do with a txid. */
  ghost predicate Foreign(tx: Tx, c: Uint256) {
    tx.hash != c && forall i :: 0 <= i < |tx.vin| ==> tx.vin[i].prevout.hash != c
  }

  lemma {:induction false} SpendAside(m: CoinMap, vin: seq<TxIn>, k: nat, c: Uint256, x: Coins)
    requires k <= |vin| && forall i :: 0 <= i < |vin| ==> vin[i].prevout.hash != c
    ensures SpendInputs(m[c := x], vin, k) == SpendInputs(m, vin, k)[c := x]
    ensures ValueIn(m[c := x], vin, k) == ValueIn(m, vin, k)
  {
    hide SpendAt;
    if k > 0 { SpendAside(m, vin, k - 1, c, x); }
  }

  lemma TxAside(p: Params, m: CoinMap, tx: Tx, h: nat, c: Uint256, x: Coins)
    requires Foreign(tx, c)
    ensures ApplyTx(m[c := x], tx, h) == ApplyTx(m, tx, h)[c := x]
    ensures FeeOf(m[c := x], tx) == FeeOf(m, tx)
    ensures InputsOk(p, m, tx, h) ==> InputsOk(p, m[c := x], tx, h)
  {
    SpendAside(m, Inputs(tx), |Inputs(tx)|, c, x);
    SpendAside(m, tx.vin, |tx.vin|, c, x);
    if InputsOk(p, m, tx, h) && !tx.IsCoinBase() {
      var m1 := m[c := x];
      forall i | 0 <= i < |tx.vin| ensures InputOk(p, m1, tx.vin, i, h) {
        assert InputOk(p, m, tx.vin, i, h);
        SpendAside(m, tx.vin, i + 1, c, x);
      }
    }
  }

  /** With a coinbase in front that none of them touches, the transactions do what they do without it. */
  lemma {:induction false} BehindCoinbase(p: Params, m: CoinMap, coinbase: Tx, vtx: seq<Tx>, k: nat, h: nat)
    requires coinbase.IsCoinBase() && k <= |vtx| && forall i :: 0 <= i < |vtx| ==> Foreign(vtx[i], coinbase.hash)
    ensures ApplyTxs(m, [coinbase] + vtx, k + 1, h) == ApplyTxs(m, vtx, k, h)[coinbase.hash := FromTx(coinbase, h)]
    ensures FeesOf(m, [coinbase] + vtx, k + 1, h) == FeesOf(m, vtx, k, h)
  {
    hide InputsOk, FromTx, SpendInputs, ValueIn;
    if k == 0 {
      CoinbaseFirstStep(m, coinbase, vtx, h);
    } else {
      BehindCoinbase(p, m, coinbase, vtx, k - 1, h);
      TxAside(p, ApplyTxs(m, vtx, k - 1, h), vtx[k - 1], h, coinbase.hash, FromTx(coinbase, h));
      hide ApplyTx, FeeOf;
    }
  }

  lemma CoinbaseFirstStep(m: CoinMap, coinbase: Tx, vtx: seq<Tx>, h: nat)
    requires coinbase.IsCoinBase()
    ensures ApplyTxs(m, [coinbase] + vtx, 1, h) == m[coinbase.hash := FromTx(coinbase, h)]
    ensures FeesOf(m, [coinbase] + vtx, 1, h) == 0
  {
    hide FromTx;
    assert ApplyTxs(m, [coinbase] + vtx, 0, h) == m;
    assert ([coinbase] + vtx)[0] == coinbase;
  }

  /** Every transaction after the coinbase still meets the input rules at its place. */
  lemma PlacedBehindCoinbase(p: Params, q: Policy, pool: Pool, m: CoinMap, coinbase: Tx, chosen: seq<Tx>, i: nat, h: nat)
    requires coinbase.IsCoinBase() && forall k :: 0 <= k < |chosen| ==> Foreign(chosen[k], coinbase.hash)
    requires Chosen(p, q, pool, m, chosen, h) && i <= |chosen|
    ensures TxOkAt(p, m, [coinbase] + chosen, i, h)
  {
    hide InputsOk, FromTx, ApplyTx, FeeOf, Parents, HashesOf, Eligible;
    if i == 0 {
      CoinbaseInputs(p, ApplyTxs(m, [coinbase] + chosen, 0, h), coinbase, h);
    } else {
      BehindCoinbase(p, m, coinbase, chosen, i - 1, h);
      assert Placed(p, q, pool, m, chosen, i - 1, h);
      TxAside(p, ApplyTxs(m, chosen, i - 1, h), chosen[i - 1], h, coinbase.hash, FromTx(coinbase, h));
    }
  }

  lemma CoinbaseInputs(p: Params, m: CoinMap, coinbase: Tx, h: nat)
    requires coinbase.IsCoinBase()
    ensures InputsOk(p, m, coinbase, h)
  {
  }

  lemma BuiltInputsOk(p: Params, q: Policy, pool: Pool, m: CoinMap, coinbase: Tx, chosen: seq<Tx>, h: nat)
    requires coinbase.IsCoinBase() && Chosen(p, q, pool, m, chosen, h)
    requires forall i :: 0 <= i < |chosen| ==> Foreign(chosen[i], coinbase.hash)
    ensures var vtx := [coinbase] + chosen;
      AllInputsOk(p, m, vtx, h) && FeesOf(m, vtx, |vtx|, h) == FeesOf(m, chosen, |chosen|, h)
  {
    hide TxOkAt, Chosen, ApplyTxs, FeesOf;
    var vtx := [coinbase] + chosen;
    forall i | 0 <= i < |vtx| ensures TxOkAt(p, m, vtx, i, h) {
      PlacedBehindCoinbase(p, q, pool, m, coinbase, chosen, i, h);
    }
    BehindCoinbase(p, m, coinbase, chosen, |chosen|, h);
  }

  lemma BuiltWellFormed(p: Params, q: Policy, pool: Pool, m: CoinMap, coinbase: Tx, chosen: seq<Tx>, h: nat)
    requires PoolOk(pool, m) && Chosen(p, q, pool, m, chosen, h) && coinbase.IsCoinBase()
    requires forall i :: 0 <= i < |chosen| ==> Foreign(chosen[i], coinbase.hash)
    ensures WellFormedBlock([coinbase] + chosen) <==> WellFormedTx(coinbase)
  {
    var vtx := [coinbase] + chosen;
    hide WellFormedTx, Parents, TxOkAt, Rooted, HashesOf;
    assert vtx[0] == coinbase && forall i :: 1 <= i < |vtx| ==> vtx[i] == chosen[i - 1];
    forall i | 0 <= i < |chosen| ensures WellFormedTx(chosen[i]) && !chosen[i].IsCoinBase() {
      assert Placed(p, q, pool, m, chosen, i, h);
    }
    forall i, j | 0 <= i < j < |vtx| ensures vtx[i].hash != vtx[j].hash {
      if i == 0 {
        assert Foreign(chosen[j - 1], coinbase.hash);
      } else {
        assert Placed(p, q, pool, m, chosen, i - 1, h) && Placed(p, q, pool, m, chosen, j - 1, h);
      }
    }
    assert AllWellFormed(vtx) <==> WellFormedTx(coinbase);
  }

  lemma {:induction false} RedeemAside(m: CoinMap, vin: seq<TxIn>, k: nat, c: Uint256, x: Coins)
    requires k <= |vin| && forall i :: 0 <= i < |vin| ==> vin[i].prevout.hash != c
    ensures RedeemSigOpsOf(m[c := x], vin, k) == RedeemSigOpsOf(m, vin, k)
  {
    hide RedeemSigOps;
    if k > 0 { RedeemAside(m, vin, k - 1, c, x); }
  }

  /** The coinbase in front adds its own size. */
  lemma {:induction false} SizeBehindCoinbase(coinbase: Tx, vtx: seq<Tx>, k: nat)
    requires k <= |vtx|
    ensures SizeOf([coinbase] + vtx, k + 1) == TxSize(coinbase) + SizeOf(vtx, k)
  {
    hide TxSize;
    if k == 0 {
      assert SizeOf([coinbase] + vtx, 0) == 0 && ([coinbase] + vtx)[0] == coinbase;
    } else {
      SizeBehindCoinbase(coinbase, vtx, k - 1);
    }
  }

  /** And its own signature operations. */
  lemma {:induction false} SigOpsBehindCoinbase(p: Params, m: CoinMap, coinbase: Tx, vtx: seq<Tx>, k: nat, h: nat)
    requires coinbase.IsCoinBase() && k <= |vtx| && forall i :: 0 <= i < |vtx| ==> Foreign(vtx[i], coinbase.hash)
    ensures SigOpsOf(m, [coinbase] + vtx, k + 1, h) == LegacySigOps(coinbase) + SigOpsOf(m, vtx, k, h)
  {
    hide ApplyTx, ApplyTxs, TxSigOps, FromTx, Foreign;
    var all := [coinbase] + vtx;
    if k == 0 {
      CoinbaseRedeemsNothing(ApplyTxs(m, all, 0, h), coinbase);
      assert SigOpsOf(m, all, 0, h) == 0 && all[0] == coinbase;
    } else {
      SigOpsBehindCoinbase(p, m, coinbase, vtx, k - 1, h);
      BehindCoinbase(p, m, coinbase, vtx, k - 1, h);
      assert all[k] == vtx[k - 1];
      TxSigOpsAside(ApplyTxs(m, vtx, k - 1, h), vtx[k - 1], coinbase.hash, FromTx(coinbase, h));
    }
  }

  lemma CoinbaseRedeemsNothing(m: CoinMap, coinbase: Tx)
    requires coinbase.IsCoinBase()
    ensures TxSigOps(m, coinbase) == LegacySigOps(coinbase)
  {
    hide LegacySigOps;
  }

  lemma TxSigOpsAside(m: CoinMap, tx: Tx, c: Uint256, x: Coins)
    requires Foreign(tx, c)
    ensures TxSigOps(m[c := x], tx) == TxSigOps(m, tx)
  {
    hide LegacySigOps, RedeemSigOpsOf;
    RedeemAside(m, Inputs(tx), |Inputs(tx)|, c, x);
  }

  /** What a built block takes in bytes and signature operations; the payouts in its coinbase were not counted when
      its transactions were chosen. */
  predicate Fits(m: CoinMap, block: Block, coinbase: Tx, chosen: seq<Tx>, h: nat) {
    && BlockOverhead(block) + TxSize(coinbase) + SizeOf(chosen, |chosen|) <= MAX_BLOCK_SIZE
    && LegacySigOps(coinbase) + SigOpsOf(m, chosen, |chosen|, h) <= MAX_BLOCK_SIGOPS
  }

  lemma FitsExactly(p: Params, m: CoinMap, block: Block, coinbase: Tx, chosen: seq<Tx>, h: nat)
    requires coinbase.IsCoinBase() && block.vtx == [coinbase] + chosen
    requires forall i :: 0 <= i < |chosen| ==> Foreign(chosen[i], coinbase.hash)
    ensures Fits(m, block, coinbase, chosen, h) <==> BlockLimits(block) && SigOpsOk(m, block.vtx, h)
  {
    hide TxSize, LegacySigOps, TxSigOps, BlockOverhead, Foreign, ApplyTxs;
    SizeBehindCoinbase(coinbase, chosen, |chosen|);
    SigOpsBehindCoinbase(p, m, coinbase, chosen, |chosen|, h);
    CountBelowSize(block.vtx, |block.vtx|);
    LegacyBelowAll(m, block.vtx, |block.vtx|, h);
  }

  /** ConnectBlock accepts what CreateNewBlock built, once the coinbase has a txid of its own, exactly when the
      coinbase is well formed, nothing overwrites an unspent transaction, and the block is not too big. */
  lemma BuiltIsAccepted(p: Params, q: Policy, pool: Pool, m: CoinMap, prev: BlockIndex, lottoHeader: LottoHeader,
                        hash: Uint256, coinbase: Tx, chosen: seq<Tx>)
    requires PoolOk(pool, m) && Chosen(p, q, pool, m, chosen, prev.nHeight + 1)
    requires coinbase.IsCoinBase() && coinbase.vout != [] && coinbase.vout[0].nValue ==
      GetBlockValue(prev.nHeight + 1, FeesOf(m, chosen, |chosen|, prev.nHeight + 1))
    requires LottoResultOk(p, prev, Block(hash, [coinbase] + chosen, lottoHeader))
    requires forall i :: 0 <= i < |chosen| ==> Foreign(chosen[i], coinbase.hash)
    ensures var block := Block(hash, [coinbase] + chosen, lottoHeader);
      Accepts(p, m, BlockIndex(Some(prev), prev.nHeight + 1, block)) <==>
      WellFormedTx(coinbase) && NoOverwrite(m, block.vtx) && Fits(m, block, coinbase, chosen, prev.nHeight + 1)
  {
    hide PoolOk, Chosen, FeesOf, LottoResultOk, WellFormedBlock, WellFormedTx, NoOverwrite, Foreign, AllInputsOk,
      GetBlockValue, BlockLimits, SigOpsOk, Fits;
    BuiltWellFormed(p, q, pool, m, coinbase, chosen, prev.nHeight + 1);
    BuiltInputsOk(p, q, pool, m, coinbase, chosen, prev.nHeight + 1);
    FitsExactly(p, m, Block(hash, [coinbase] + chosen, lottoHeader), coinbase, chosen, prev.nHeight + 1);
  }

  /** Header and coinbase of at most 2000 bytes and 100 signature operations always fit. */
  lemma SmallCoinbaseFits(p: Params, q: Policy, m: CoinMap, h: nat, s: Selection, block: Block, coinbase: Tx)
    requires Totals(p, q, m, h, s.vtx, MaxSize(q), s.nBlockSize, s.nBlockSigOps, s.nFees, s.nCurBetValue)
    requires BlockOverhead(block) + TxSize(coinbase) <= 2000 && LegacySigOps(coinbase) <= 100
    ensures Fits(m, block, coinbase, s.vtx, h)
  {
    hide TxSize, LegacySigOps, BlockOverhead;
  }
}
