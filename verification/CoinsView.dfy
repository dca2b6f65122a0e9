/** A coin database under any number of write-back caches (src/coins.h, src/coins.cpp, src/txdb.cpp). */
module CoinsView {
  import opened Core
  import opened Coins
  import opened Utxo

  method IsPrunedValue(value: Coins) returns (b: bool)
    ensures b <==> value.IsPruned()
  {
    var c := new CCoins(value);
    b := c.IsPruned();
  }

  // ---- the database ----

  /** The database after the batch entries of the given ids: spent ones are erased, others stored. */
  ghost function Written(m: CoinMap, batch: CoinMap, ids: set<Uint256>): CoinMap {
    map id | id in m.Keys + batch.Keys && (if id in batch && id in ids then !batch[id].IsPruned() else id in m) ::
      if id in batch && id in ids then Stored(batch[id]) else m[id]
  }

  lemma WrittenNext(m: CoinMap, batch: CoinMap, ids: set<Uint256>, id: Uint256)
    requires id in batch
    ensures var was := Written(m, batch, ids);
      Written(m, batch, ids + {id}) == if batch[id].IsPruned() then was - {id} else was[id := Stored(batch[id])]
  {
  }

  lemma WrittenNone(m: CoinMap, batch: CoinMap)
    ensures Written(m, batch, {}) == m
  {
  }

  lemma WrittenLive(m: CoinMap, batch: CoinMap)
    ensures Live(Written(m, batch, batch.Keys)) == Live(m + StoredMap(batch))
  {
    var written, added := Written(m, batch, batch.Keys), m + StoredMap(batch);
    forall id
      ensures id in Live(written) <==> id in Live(added)
      ensures id in Live(added) ==> written[id] == added[id]
    {
      assert id in batch ==> (Stored(batch[id]).IsPruned() <==> batch[id].IsPruned());
    }
  }

  /** The bottom of every stack: the database itself. */
  class CCoinsViewDB {
    var coins: CoinMap
    var hashBestChain: Uint256

    constructor ()
      ensures coins == map[] && hashBestChain == 0
    {
      coins, hashBestChain := map[], 0;
    }

    /** Write a batch in stored form; spent entries are erased, and a best block of 0 is not written. */
    method BatchWrite(mapCoins: CoinMap, hashBlock: Uint256)
      modifies this
      ensures coins == Written(old(coins), mapCoins, mapCoins.Keys)
      ensures hashBestChain == if hashBlock != 0 then hashBlock else old(hashBestChain)
    {
      hide Written;
      WrittenNone(coins, mapCoins);
      var todo := mapCoins.Keys;
      assert mapCoins.Keys - todo == {};
      while todo != {}
        invariant todo <= mapCoins.Keys
        invariant coins == Written(old(coins), mapCoins, mapCoins.Keys - todo)
        invariant hashBestChain == old(hashBestChain)
        decreases todo
      {
        var id :| id in todo;
        WrittenNext(old(coins), mapCoins, mapCoins.Keys - todo, id);
        assert mapCoins.Keys - (todo - {id}) == mapCoins.Keys - todo + {id};
        var pruned := IsPrunedValue(mapCoins[id]);
        if pruned {
          coins := coins - {id};
        } else {
          coins := coins[id := Stored(mapCoins[id])];
        }
        todo := todo - {id};
      }
      assert mapCoins.Keys - {} == mapCoins.Keys;
      if hashBlock != 0 {
        hashBestChain := hashBlock;
      }
    }
  }

  /** One cache layer. base == null means that the layer sits directly on the database. */
  class CCoinsViewCache {
    const base: CCoinsViewCache?
    const db: CCoinsViewDB
    var hashBlock: Uint256
    var cacheCoins: CoinMap
    ghost const Repr: set<object>

    ghost predicate Valid()
      decreases Repr
    {
      if base == null then Repr == {this, db}
      else
        && this !in base.Repr
        && Repr == {this} + base.Repr
        && db == base.db
        && db != (this as object)
        && base.Valid()
    }

    /** The map this layer stands for. */
    ghost function Map(): CoinMap
      requires Valid()
      reads Repr
      decreases Repr
    {
      (if base == null then db.coins else base.Map()) + cacheCoins
    }

    /** The best block this layer stands for: 0 reads through to the layer below. */
    ghost function Best(): Uint256
      requires Valid()
      reads Repr
      decreases Repr
    {
      if hashBlock != 0 then hashBlock else if base == null then db.hashBestChain else base.Best()
    }

    ghost function BaseMap(): CoinMap
      requires Valid()
      reads Repr
    {
      if base == null then db.coins else base.Map()
    }

    ghost function BaseBest(): Uint256
      requires Valid()
      reads Repr
    {
      if base == null then db.hashBestChain else base.Best()
    }

    /** Nothing below this layer changed. */
    twostate predicate SameBelow()
      requires Valid()
      reads Repr
    {
      BaseMap() == old(BaseMap()) && BaseBest() == old(BaseBest())
    }

    twostate predicate SameBest()
      requires Valid()
      reads Repr
    {
      Best() == old(Best()) && hashBlock == old(hashBlock)
    }

    /** Caches may have been filled, but every abstract state is the same. */
    twostate predicate OnlyFilled()
      requires Valid()
      reads Repr
    {
      && Map() == old(Map())
      && Best() == old(Best())
      && SameBelow()
    }

    constructor OnDB(dbIn: CCoinsViewDB)
      ensures Valid() && fresh(this) && base == null && db == dbIn && cacheCoins == map[] && hashBlock == 0
      ensures Repr == {this, dbIn}
    {
      base, db, hashBlock, cacheCoins := null, dbIn, 0, map[];
      Repr := {this, dbIn};
    }

    constructor OnCache(baseIn: CCoinsViewCache)
      requires baseIn.Valid()
      ensures Valid() && fresh(this) && base == baseIn && cacheCoins == map[] && hashBlock == 0
      ensures Repr == {this} + baseIn.Repr
      ensures Map() == baseIn.Map() && Best() == baseIn.Best()
    {
      base, db, hashBlock, cacheCoins := baseIn, baseIn.db, 0, map[];
      Repr := {this} + baseIn.Repr;
    }

    /** Read an entry, filling the caches of every layer passed on the way. */
    method GetCoins(txid: Uint256) returns (found: bool, coins: Coins)
      requires Valid()
      modifies Repr
      ensures OnlyFilled() && SameBest()
      ensures found <==> txid in Map()
      ensures found ==> coins == Map()[txid] && txid in cacheCoins && cacheCoins[txid] == coins
      ensures !found ==> coins == EMPTY_COINS
      decreases Repr, 1
    {
      if txid in cacheCoins {
        return true, cacheCoins[txid];
      }
      found, coins := GetBaseCoins(txid);
      if found {
        cacheCoins := cacheCoins[txid := coins];
      }
    }

    /** Read an entry from the layer below. */
    method GetBaseCoins(txid: Uint256) returns (found: bool, coins: Coins)
      requires Valid()
      modifies Repr - {this}
      ensures SameBelow()
      ensures found <==> txid in BaseMap()
      ensures coins == if found then BaseMap()[txid] else EMPTY_COINS
      decreases Repr, 0
    {
      if base == null {
        found := txid in db.coins;
        coins := if found then db.coins[txid] else EMPTY_COINS;
      } else {
        found, coins := base.GetCoins(txid);
      }
    }

    method HaveCoins(txid: Uint256) returns (found: bool)
      requires Valid()
      modifies Repr
      ensures OnlyFilled() && SameBest()
      ensures found <==> txid in Map()
    {
      var coins;
      found, coins := GetCoins(txid);
    }

    method SetCoins(txid: Uint256, coins: Coins)
      requires Valid()
      modifies this`cacheCoins
      ensures Map() == old(Map())[txid := coins] && Best() == old(Best()) && SameBelow()
    {
      cacheCoins := cacheCoins[txid := coins];
    }

    /** Read the best block, remembering it in every layer that had not read it yet. */
    method GetBestBlock() returns (hash: Uint256)
      requires Valid()
      modifies Repr
      ensures OnlyFilled() && cacheCoins == old(cacheCoins)
      ensures hash == Best() == hashBlock
      decreases Repr
    {
      if hashBlock == 0 {
        if base == null {
          hashBlock := db.hashBestChain;
        } else {
          hashBlock := base.GetBestBlock();
        }
      }
      hash := hashBlock;
    }

    method SetBestBlock(hashBlockIn: Uint256)
      requires Valid()
      modifies this`hashBlock
      ensures hashBlock == hashBlockIn && Map() == old(Map()) && SameBelow()
    {
      hashBlock := hashBlockIn;
    }

    method OverwriteEntries(mapCoins: CoinMap)
      modifies this`cacheCoins
      ensures cacheCoins == old(cacheCoins) + mapCoins
    {
      var todo := mapCoins.Keys;
      while todo != {}
        invariant todo <= mapCoins.Keys
        invariant cacheCoins.Keys == old(cacheCoins.Keys) + (mapCoins.Keys - todo)
        invariant forall id :: id in cacheCoins ==>
          cacheCoins[id] == if id in mapCoins && id !in todo then mapCoins[id] else old(cacheCoins)[id]
        decreases todo
      {
        var id :| id in todo;
        cacheCoins := cacheCoins[id := mapCoins[id]];
        todo := todo - {id};
      }
    }

    method BatchWrite(mapCoins: CoinMap, hashBlockIn: Uint256)
      requires Valid()
      modifies this
      ensures Map() == old(Map()) + mapCoins && hashBlock == hashBlockIn && SameBelow()
    {
      OverwriteEntries(mapCoins);
      hashBlock := hashBlockIn;
      assert BaseMap() + (old(cacheCoins) + mapCoins) == (BaseMap() + old(cacheCoins)) + mapCoins;
    }

    /** Push this layer into the one below. The live coins move down exactly, but the database stores negative
        versions as their low seven bits. The best block moves too, unless it was neither read nor set and the
        cache below had one of its own: that one is then overwritten by 0. */
    method Flush()
      requires Valid()
      modifies Repr
      ensures cacheCoins == map[] && hashBlock == old(hashBlock)
      ensures Map() == BaseMap() && Same(true, Map(), old(Map()))
      ensures base != null ==> Map() == old(Map())
      ensures base == null ==> Map() == Written(old(BaseMap()), old(cacheCoins), old(cacheCoins.Keys))
      ensures Live(Map()) == Live(old(Map())) <==> base != null || NoNegativeVersion(old(cacheCoins))
      ensures hashBlock != 0 ==> Best() == BaseBest() == old(Best())
      ensures hashBlock == 0 && base == null ==> Best() == BaseBest() == old(Best())
      ensures hashBlock == 0 && base != null ==>
        base.hashBlock == 0 && Best() == BaseBest() == base.BaseBest() == old(base.BaseBest())
      ensures Best() == old(Best()) <==>
        hashBlock != 0 || base == null || old(base.hashBlock) == 0 || old(base.hashBlock) == old(base.BaseBest())
    {
      hide Written, Live, Same, StoredMap, NoNegativeVersion;
      if base == null {
        WrittenLive(db.coins, cacheCoins);
        db.BatchWrite(cacheCoins, hashBlock);
        StoredBatch(db.coins, old(db.coins), cacheCoins);
      } else {
        base.BatchWrite(cacheCoins, hashBlock);
      }
      cacheCoins := map[];
      assert BaseMap() + map[] == BaseMap();
      if base != null { SameOfLive(true, Map(), old(Map())); }
    }

    /** Whether every input names an output that is there. */
    method HaveInputs(tx: Tx) returns (ok: bool)
      requires Valid()
      modifies Repr
      ensures OnlyFilled() && SameBest()
      ensures ok <==> Utxo.HaveInputs(Map(), Inputs(tx))
    {
      if tx.IsCoinBase() { return true; }
      for i := 0 to |tx.vin|
        invariant OnlyFilled() && SameBest()
        invariant forall k :: 0 <= k < i ==> tx.vin[k].prevout.hash in Map()
      {
        var have := HaveCoins(tx.vin[i].prevout.hash);
        if !have { return false; }
      }
      for i := 0 to |tx.vin|
        invariant OnlyFilled() && SameBest()
        invariant forall k :: 0 <= k < i ==> Avail(Map(), tx.vin[k].prevout)
      {
        var have, coins := GetCoins(tx.vin[i].prevout.hash);
        if !coins.IsAvailable(tx.vin[i].prevout.n) { return false; }
      }
      return true;
    }

    /** Total value of the inputs; 0 for a coinbase. */
    method GetValueIn(tx: Tx) returns (nResult: int)
      requires Valid() && Utxo.HaveInputs(Map(), Inputs(tx))
      modifies Repr
      ensures OnlyFilled() && SameBest()
      ensures nResult == ValueIn(Map(), Inputs(tx), |Inputs(tx)|)
    {
      nResult := 0;
      if tx.IsCoinBase() { return; }
      for i := 0 to |tx.vin|
        invariant OnlyFilled() && SameBest()
        invariant nResult == ValueIn(Map(), tx.vin, i)
      {
        var have, coins := GetCoins(tx.vin[i].prevout.hash);
        nResult := nResult + coins.vout[tx.vin[i].prevout.n].nValue;
      }
    }
  }
}
