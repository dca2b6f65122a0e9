/** What each change to the address manager's tables does to their consistency. */
module AddrTables {
  import opened AddrInfo

  // ---- a new entry ----

  lemma CreateIndexes(m: InfoMap, nIdCount: nat, mapAddr: map<NetAddr, nat>, vRandom: seq<nat>, info: Info)
    requires IdsOk(m, nIdCount) && AddrOk(m, mapAddr) && RandomOk(m, vRandom)
    requires info.svc.ip !in mapAddr && info.nRandomPos == |vRandom|
    ensures var m' := m[nIdCount := info];
      IdsOk(m', nIdCount + 1) && AddrOk(m', mapAddr[info.svc.ip := nIdCount]) && RandomOk(m', vRandom + [nIdCount])
  {
    var m' := m[nIdCount := info];
    assert RandomOk(m', vRandom + [nIdCount]) by {
      hide AddrOk;
      assert forall p :: 0 <= p < |vRandom| ==> vRandom[p] in m && vRandom[p] != nIdCount;
    }
    assert AddrOk(m', mapAddr[info.svc.ip := nIdCount]) by {
      hide RandomOk;
      assert forall ip :: ip in mapAddr ==> mapAddr[ip] != nIdCount;
    }
  }

  lemma CreateTables(h: Hasher, m: InfoMap, vvNew: seq<set<nat>>, vvTried: seq<seq<nat>>, nNew: int, nTried: int,
                     id: nat, info: Info)
    requires id !in m && info.nRefCount == 0 && !info.fInTried
    requires NewOk(m, vvNew, -1, -1) && TriedOk(h, m, vvTried) && CountsOk(m, nNew, nTried, -1)
    ensures var m' := m[id := info];
      NewOk(m', vvNew, -1, id) && TriedOk(h, m', vvTried) && CountsOk(m', nNew, nTried, id)
  {
    hide NewOk, CountsOk;
    CreateBuckets(m, vvNew, id, info);
    CreateCounts(m, nNew, nTried, id, info);
  }

  lemma CreateBuckets(m: InfoMap, vvNew: seq<set<nat>>, id: nat, info: Info)
    requires id !in m && info.nRefCount == 0 && !info.fInTried && NewOk(m, vvNew, -1, -1)
    ensures NewOk(m[id := info], vvNew, -1, id)
  {
    var m' := m[id := info];
    assert BucketsOf(vvNew, id) == {};
    forall k | k in m' ensures RefOk(m', vvNew, k, -1, id) {
      hide BucketsOf;
      if k != id { assert RefOk(m, vvNew, k, -1, -1); }
    }
  }

  lemma CreateCounts(m: InfoMap, nNew: int, nTried: int, id: nat, info: Info)
    requires id !in m && !info.fInTried && CountsOk(m, nNew, nTried, -1)
    ensures CountsOk(m[id := info], nNew, nTried, id)
  {
    var m' := m[id := info];
    assert Settled(m', id) == Settled(m, -1);
    assert TriedIds(m') == TriedIds(m);
  }

  /** An entry in limbo gets its first reference. */
  lemma CountNewKeeps(m: InfoMap, vvNew: seq<set<nat>>, nNew: int, nTried: int, id: nat)
    requires id in m && m[id].nRefCount == 0
    requires NewOk(m, vvNew, -1, id) && CountsOk(m, nNew, nTried, id)
    ensures var m' := m[id := m[id].(nRefCount := 1)];
      NewOk(m', vvNew, id, -1) && CountsOk(m', nNew + 1, nTried, -1)
  {
    var m' := m[id := m[id].(nRefCount := 1)];
    assert RefOk(m, vvNew, id, -1, id);
    assert CountsOk(m', nNew + 1, nTried, -1) by {
      assert Settled(m', -1) == Settled(m, id) + {id} && TriedIds(m') == TriedIds(m);
    }
    forall k | k in m' ensures RefOk(m', vvNew, k, id, -1) {
      hide CountsOk, BucketsOf;
      assert RefOk(m, vvNew, k, -1, id);
    }
  }

  /** One more reference is taken before the bucket is filled. */
  lemma ReferenceKeeps(m: InfoMap, vvNew: seq<set<nat>>, id: nat)
    requires id in m && !m[id].fInTried && m[id].nRefCount < ADDRMAN_NEW_BUCKETS_PER_ADDRESS
    requires NewOk(m, vvNew, -1, -1)
    ensures NewOk(m[id := m[id].(nRefCount := m[id].nRefCount + 1)], vvNew, id, -1)
  {
    var m' := m[id := m[id].(nRefCount := m[id].nRefCount + 1)];
    forall k | k in m' ensures RefOk(m', vvNew, k, id, -1) {
      assert RefOk(m, vvNew, k, -1, -1);
    }
  }

  lemma InsertKeeps(m: InfoMap, vvNew: seq<set<nat>>, b: nat, id: nat)
    requires b < |vvNew| && id in m && id !in vvNew[b]
    requires NewOk(m, vvNew, id, -1)
    ensures NewOk(m, vvNew[b := vvNew[b] + {id}], -1, -1)
  {
    var v' := vvNew[b := vvNew[b] + {id}];
    assert b !in BucketsOf(vvNew, id);
    forall k | k in m ensures RefOk(m, v', k, -1, -1) {
      assert RefOk(m, vvNew, k, id, -1);
      BucketsAfterInsert(vvNew, b, id, k);
    }
  }

  // ---- dropping a reference ----

  lemma DropReferenceKeeps(m: InfoMap, vvNew: seq<set<nat>>, b: nat, id: nat, pend: int)
    requires b < |vvNew| && id in vvNew[b] && id != pend
    requires NewOk(m, vvNew, pend, -1)
    ensures id in m && !m[id].fInTried && m[id].nRefCount >= 1
    ensures var v' := vvNew[b := vvNew[b] - {id}];
      && (m[id].nRefCount > 1 ==> NewOk(m[id := m[id].(nRefCount := m[id].nRefCount - 1)], v', pend, -1))
      && (m[id].nRefCount == 1 ==> NewOk(m - {id}, v', pend, -1))
  {
    var v' := vvNew[b := vvNew[b] - {id}];
    assert RefOk(m, vvNew, id, pend, -1);
    assert b in BucketsOf(vvNew, id);
    BucketsAfterErase(vvNew, b, id, id);
    if m[id].nRefCount > 1 {
      var m' := m[id := m[id].(nRefCount := m[id].nRefCount - 1)];
      forall k | k in m' ensures RefOk(m', v', k, pend, -1) {
        assert RefOk(m, vvNew, k, pend, -1);
        BucketsAfterErase(vvNew, b, id, k);
      }
    } else {
      assert BucketsOf(v', id) == {};
      forall c, k | 0 <= c < |v'| && k in v'[c] ensures k in m - {id} {
        assert c !in BucketsOf(v', id);
      }
      forall k | k in m - {id} ensures RefOk(m - {id}, v', k, pend, -1) {
        assert RefOk(m, vvNew, k, pend, -1);
        BucketsAfterErase(vvNew, b, id, k);
      }
    }
  }

  /** Deleting an entry that stands last in vRandom. */
  lemma DeleteIndexes(m: InfoMap, nIdCount: nat, mapAddr: map<NetAddr, nat>, vRandom: seq<nat>, id: nat)
    requires id in m && vRandom != [] && vRandom[|vRandom| - 1] == id
    requires IdsOk(m, nIdCount) && AddrOk(m, mapAddr) && RandomOk(m, vRandom)
    ensures var m' := m - {id};
      IdsOk(m', nIdCount) && AddrOk(m', mapAddr - {m[id].svc.ip}) && RandomOk(m', vRandom[..|vRandom| - 1])
  {
    assert RandomOk(m - {id}, vRandom[..|vRandom| - 1]) by { hide AddrOk, IdsOk; }
    assert AddrOk(m - {id}, mapAddr - {m[id].svc.ip}) by { hide RandomOk, IdsOk; }
  }

  lemma DeleteTables(h: Hasher, m: InfoMap, vvTried: seq<seq<nat>>, nNew: int, nTried: int, id: nat)
    requires id in m && !m[id].fInTried && TriedOk(h, m, vvTried) && CountsOk(m, nNew, nTried, -1)
    ensures TriedOk(h, m - {id}, vvTried) && CountsOk(m - {id}, nNew - 1, nTried, -1)
  {
    hide CountsOk;
    DeleteCounts(m, nNew, nTried, id);
  }

  lemma DeleteCounts(m: InfoMap, nNew: int, nTried: int, id: nat)
    requires id in m && !m[id].fInTried && CountsOk(m, nNew, nTried, -1)
    ensures CountsOk(m - {id}, nNew - 1, nTried, -1)
  {
    var m' := m - {id};
    assert Settled(m', -1) == Settled(m, -1) - {id} && TriedIds(m') == TriedIds(m);
    assert id in Settled(m, -1);
  }

  /** The entries once id, its count at zero, has changed places with the last of vRandom and is erased. */
  ghost function Erased(m: InfoMap, vRandom: seq<nat>, id: nat): InfoMap
    requires RandomOk(m, vRandom) && id in m
  {
    var m1 := m[id := m[id].(nRefCount := 0)];
    SwappedInfo(m1, vRandom, m[id].nRandomPos, |vRandom| - 1) - {id}
  }

  lemma ErasedEntries(m: InfoMap, vRandom: seq<nat>, id: nat)
    requires RandomOk(m, vRandom) && id in m
    ensures SameTables(m - {id}, Erased(m, vRandom, id))
    ensures forall k :: k in m && k != id ==>
      Erased(m, vRandom, id)[k] == m[k].(nRandomPos := Erased(m, vRandom, id)[k].nRandomPos)
  {
  }

  lemma CountCleared(m: InfoMap, nIdCount: nat, mapAddr: map<NetAddr, nat>, vRandom: seq<nat>, id: nat)
    requires id in m && IdsOk(m, nIdCount) && AddrOk(m, mapAddr) && RandomOk(m, vRandom)
    ensures var m1 := m[id := m[id].(nRefCount := 0)];
      RandomOk(m1, vRandom) && AddrOk(m1, mapAddr) && IdsOk(m1, nIdCount)
    ensures 0 <= m[id].nRandomPos < |vRandom| && vRandom[m[id].nRandomPos] == id
  {
  }

  lemma ErasedIndexes(m: InfoMap, nIdCount: nat, mapAddr: map<NetAddr, nat>, vRandom: seq<nat>, id: nat)
    requires id in m && IdsOk(m, nIdCount) && AddrOk(m, mapAddr) && RandomOk(m, vRandom)
    ensures var m' := Erased(m, vRandom, id);
      && IdsOk(m', nIdCount) && AddrOk(m', mapAddr - {m[id].svc.ip})
      && RandomOk(m', Swapped(vRandom, m[id].nRandomPos, |vRandom| - 1)[..|vRandom| - 1])
  {
    hide AddrOk, IdsOk, RandomOk;
    CountCleared(m, nIdCount, mapAddr, vRandom, id);
    var m1 := m[id := m[id].(nRefCount := 0)];
    var p, q := m[id].nRandomPos, |vRandom| - 1;
    var m2, v2 := SwappedInfo(m1, vRandom, p, q), Swapped(vRandom, p, q);
    assert v2[q] == id;
    SwapKeeps(m1, vRandom, p, q);
    IndexesOfSame(m1, m2, nIdCount, mapAddr);
    DeleteIndexes(m2, nIdCount, mapAddr, v2, id);
  }

  lemma IndexesOfSame(m1: InfoMap, m2: InfoMap, nIdCount: nat, mapAddr: map<NetAddr, nat>)
    requires SameTables(m1, m2) && IdsOk(m1, nIdCount) && AddrOk(m1, mapAddr)
    ensures IdsOk(m2, nIdCount) && AddrOk(m2, mapAddr)
  {
  }

  lemma EraseKeeps(h: Hasher, m: InfoMap, nIdCount: nat, mapAddr: map<NetAddr, nat>, vRandom: seq<nat>,
                   vvNew: seq<set<nat>>, vvTried: seq<seq<nat>>, nNew: int, nTried: int, id: nat, pend: int)
    requires id in m && !m[id].fInTried
    requires IdsOk(m, nIdCount) && AddrOk(m, mapAddr) && RandomOk(m, vRandom)
    requires NewOk(m - {id}, vvNew, pend, -1) && TriedOk(h, m, vvTried) && CountsOk(m, nNew, nTried, -1)
    ensures var m' := Erased(m, vRandom, id);
      && IdsOk(m', nIdCount) && AddrOk(m', mapAddr - {m[id].svc.ip})
      && RandomOk(m', Swapped(vRandom, m[id].nRandomPos, |vRandom| - 1)[..|vRandom| - 1])
      && NewOk(m', vvNew, pend, -1) && TriedOk(h, m', vvTried) && CountsOk(m', nNew - 1, nTried, -1)
      && m'.Keys == m.Keys - {id}
      && forall k :: k in m' ==> m'[k] == m[k].(nRandomPos := m'[k].nRandomPos)
  {
    hide IdsOk, AddrOk, NewOk, TriedOk, CountsOk, Swapped, Erased;
    ErasedIndexes(m, nIdCount, mapAddr, vRandom, id);
    ErasedEntries(m, vRandom, id);
    DeleteTables(h, m, vvTried, nNew, nTried, id);
    SameTablesKeep(h, m - {id}, Erased(m, vRandom, id), nIdCount, mapAddr, vvNew, vvTried, nNew - 1, nTried, pend, -1);
  }

  /** An entry may change in anything the indexes do not look at. */
  lemma TouchKeeps(h: Hasher, m: InfoMap, nIdCount: nat, mapAddr: map<NetAddr, nat>, vRandom: seq<nat>,
                   vvNew: seq<set<nat>>, vvTried: seq<seq<nat>>, nNew: int, nTried: int, pend: int, limbo: int,
                   id: nat, info: Info)
    requires id in m && IdsOk(m, nIdCount) && AddrOk(m, mapAddr) && RandomOk(m, vRandom)
    requires NewOk(m, vvNew, pend, limbo) && TriedOk(h, m, vvTried) && CountsOk(m, nNew, nTried, limbo)
    requires info.svc == m[id].svc && info.fInTried == m[id].fInTried && info.nRefCount == m[id].nRefCount
    requires info.nRandomPos == m[id].nRandomPos
    ensures var m' := m[id := info];
      && IdsOk(m', nIdCount) && AddrOk(m', mapAddr) && RandomOk(m', vRandom)
      && NewOk(m', vvNew, pend, limbo) && TriedOk(h, m', vvTried) && CountsOk(m', nNew, nTried, limbo)
  {
    assert SameTables(m, m[id := info]);
    IndexesIgnore(m, m[id := info], nIdCount, mapAddr, vRandom);
    hide IdsOk, AddrOk, RandomOk, NewOk, TriedOk, CountsOk, SameTables;
    SameTablesKeep(h, m, m[id := info], nIdCount, mapAddr, vvNew, vvTried, nNew, nTried, pend, limbo);
  }

  lemma IndexesIgnore(m1: InfoMap, m2: InfoMap, nIdCount: nat, mapAddr: map<NetAddr, nat>, vRandom: seq<nat>)
    requires IdsOk(m1, nIdCount) && AddrOk(m1, mapAddr) && RandomOk(m1, vRandom)
    requires m1.Keys == m2.Keys
    requires forall id :: id in m1 ==> m2[id].svc == m1[id].svc && m2[id].nRandomPos == m1[id].nRandomPos
    ensures IdsOk(m2, nIdCount) && AddrOk(m2, mapAddr) && RandomOk(m2, vRandom)
  {
  }

  /** The indexes other than the new buckets do not look at reference counts. */
  lemma CountsIgnoreRefs(h: Hasher, m: InfoMap, nIdCount: nat, mapAddr: map<NetAddr, nat>, vRandom: seq<nat>,
                         vvTried: seq<seq<nat>>, nNew: int, nTried: int, limbo: int, id: nat, nRef: int)
    requires id in m && IdsOk(m, nIdCount) && AddrOk(m, mapAddr) && RandomOk(m, vRandom)
    requires TriedOk(h, m, vvTried) && CountsOk(m, nNew, nTried, limbo)
    ensures var m' := m[id := m[id].(nRefCount := nRef)];
      && IdsOk(m', nIdCount) && AddrOk(m', mapAddr) && RandomOk(m', vRandom)
      && TriedOk(h, m', vvTried) && CountsOk(m', nNew, nTried, limbo)
  {
    var m' := m[id := m[id].(nRefCount := nRef)];
    assert Settled(m', limbo) == Settled(m, limbo) && TriedIds(m') == TriedIds(m);
  }

  lemma TriedIgnore(h: Hasher, m: InfoMap, vvTried: seq<seq<nat>>, id: nat, nRef: int)
    requires id in m && TriedOk(h, m, vvTried)
    ensures TriedOk(h, m[id := m[id].(nRefCount := nRef)], vvTried)
  {
  }

  // ---- moving to the tried table ----

  /** An entry about to be moved is in limbo. */
  lemma EnterLimbo(m: InfoMap, vvNew: seq<set<nat>>, nNew: int, nTried: int, id: nat)
    requires id in m && !m[id].fInTried
    requires NewOk(m, vvNew, -1, -1) && CountsOk(m, nNew, nTried, -1)
    ensures NewOk(m, vvNew, -1, id) && CountsOk(m, nNew - 1, nTried, id)
  {
    assert Settled(m, id) == Settled(m, -1) - {id};
    assert id in Settled(m, -1);
    forall k | k in m ensures RefOk(m, vvNew, k, -1, id) {
      assert RefOk(m, vvNew, k, -1, -1);
    }
  }

  lemma EraseInLimbo(m: InfoMap, vvNew: seq<set<nat>>, b: nat, id: nat)
    requires b < |vvNew| && id in m && id in vvNew[b]
    requires NewOk(m, vvNew, -1, id)
    ensures NewOk(m[id := m[id].(nRefCount := m[id].nRefCount - 1)], vvNew[b := vvNew[b] - {id}], -1, id)
  {
    var m' := m[id := m[id].(nRefCount := m[id].nRefCount - 1)];
    var v' := vvNew[b := vvNew[b] - {id}];
    assert b in BucketsOf(vvNew, id);
    forall k | k in m' ensures RefOk(m', v', k, -1, id) {
      assert RefOk(m, vvNew, k, -1, id);
      BucketsAfterErase(vvNew, b, id, k);
    }
  }

  /** Once no bucket holds it, an entry in limbo has no references. */
  lemma NoReferences(m: InfoMap, vvNew: seq<set<nat>>, id: nat)
    requires id in m && NewOk(m, vvNew, -1, id)
    requires forall b :: 0 <= b < |vvNew| ==> id !in vvNew[b]
    ensures m[id].nRefCount == 0
  {
    assert RefOk(m, vvNew, id, -1, id);
    assert BucketsOf(vvNew, id) == {};
  }

  /** The entry leaves limbo as a tried one. */
  lemma PlaceTriedNew(m: InfoMap, vvNew: seq<set<nat>>, nNew: int, nTried: int, id: nat)
    requires id in m && m[id].nRefCount == 0 && !m[id].fInTried
    requires NewOk(m, vvNew, -1, id) && CountsOk(m, nNew, nTried, id)
    ensures var m' := m[id := m[id].(fInTried := true)];
      NewOk(m', vvNew, -1, -1) && CountsOk(m', nNew, nTried + 1, -1)
  {
    var m' := m[id := m[id].(fInTried := true)];
    assert Settled(m', -1) == Settled(m, id) && TriedIds(m') == TriedIds(m) + {id};
    forall k | k in m' ensures RefOk(m', vvNew, k, -1, -1) {
      assert RefOk(m, vvNew, k, -1, id);
    }
  }

  lemma PlaceTriedBucket(h: Hasher, m: InfoMap, vvTried: seq<seq<nat>>, id: nat)
    requires id in m && !m[id].fInTried && TriedOk(h, m, vvTried)
    ensures var k := h.TriedBucket(m[id].svc);
      TriedOk(h, m[id := m[id].(fInTried := true)], vvTried[k := vvTried[k] + [id]])
  {
    var k := h.TriedBucket(m[id].svc);
    var m', v' := m[id := m[id].(fInTried := true)], vvTried[k := vvTried[k] + [id]];
    assert id !in vvTried[k];
    forall j | j in m' && m'[j].fInTried ensures j in v'[h.TriedBucket(m'[j].svc)] {
      if j == id { assert v'[k][|vvTried[k]|] == id; }
    }
  }

  lemma NewEntry(m: InfoMap, nIdCount: nat, vvNew: seq<set<nat>>, id: nat, b: nat)
    requires IdsOk(m, nIdCount) && NewOk(m, vvNew, -1, -1) && b < |vvNew| && id in vvNew[b]
    ensures id in m && !m[id].fInTried
  {
    assert RefOk(m, vvNew, id, -1, -1);
    assert b in BucketsOf(vvNew, id);
  }

  lemma TriedEntry(h: Hasher, m: InfoMap, vvTried: seq<seq<nat>>, k: nat, pos: nat)
    requires TriedOk(h, m, vvTried) && k < |vvTried| && pos < |vvTried[k]|
    ensures vvTried[k][pos] in m && m[vvTried[k][pos]].fInTried
  {
    assert vvTried[k][pos] in vvTried[k];
  }

  // ---- eviction ----

  /** A tried entry taken out of its place goes back to a new bucket. */
  lemma EvictedKeeps(m: InfoMap, vvNew: seq<set<nat>>, nNew: int, nTried: int, id: nat, e: nat, b: nat)
    requires id in m && e in m && m[e].fInTried && b < |vvNew|
    requires NewOk(m, vvNew, -1, id) && CountsOk(m, nNew, nTried, id)
    ensures var m' := m[e := m[e].(fInTried := false, nRefCount := 1)];
      && e !in vvNew[b]
      && NewOk(m', vvNew[b := vvNew[b] + {e}], -1, id) && CountsOk(m', nNew + 1, nTried - 1, id)
  {
    var m' := m[e := m[e].(fInTried := false, nRefCount := 1)];
    var v' := vvNew[b := vvNew[b] + {e}];
    assert RefOk(m, vvNew, e, -1, id) && RefOk(m, vvNew, id, -1, id);
    assert BucketsOf(vvNew, e) == {};
    assert b !in BucketsOf(vvNew, e);
    assert Settled(m', id) == Settled(m, id) + {e} && TriedIds(m') == TriedIds(m) - {e};
    assert e in TriedIds(m);
    forall k | k in m' ensures RefOk(m', v', k, -1, id) {
      assert RefOk(m, vvNew, k, -1, id);
      BucketsAfterInsert(vvNew, b, e, k);
    }
  }

  /** The tried buckets with id at one place. */
  function PutAt(vvTried: seq<seq<nat>>, k: nat, pos: nat, id: nat): seq<seq<nat>>
    requires k < |vvTried| && pos < |vvTried[k]|
  {
    var bucket: seq<nat> := vvTried[k][pos := id];
    vvTried[k := bucket]
  }

  /** The entry in limbo takes the evicted one's place in their common tried bucket. */
  lemma ReplaceTried(h: Hasher, m: InfoMap, vvTried: seq<seq<nat>>, id: nat, pos: nat)
    requires id in m && !m[id].fInTried && TriedOk(h, m, vvTried)
    requires pos < |vvTried[h.TriedBucket(m[id].svc)]|
    ensures var k := h.TriedBucket(m[id].svc); var e := vvTried[k][pos];
      && e in m && e != id && m[e].fInTried
      && TriedOk(h, m[e := m[e].(fInTried := false, nRefCount := 1)][id := m[id].(fInTried := true)],
                 PutAt(vvTried, k, pos, id))
  {
    var k := h.TriedBucket(m[id].svc);
    var e := vvTried[k][pos];
    var m' := m[e := m[e].(fInTried := false, nRefCount := 1)][id := m[id].(fInTried := true)];
    var v' := PutAt(vvTried, k, pos, id);
    assert e in vvTried[k] && id !in vvTried[k];
    forall j | j in m' && m'[j].fInTried ensures j in v'[h.TriedBucket(m'[j].svc)] {
      if j == id {
        assert v'[k][pos] == id;
      } else if h.TriedBucket(m'[j].svc) == k {
        var i :| 0 <= i < |vvTried[k]| && vvTried[k][i] == j;
        assert v'[k][i] == j;
      }
    }
  }

  /** Two places of a tried bucket may be swapped. */
  lemma ShuffleTried(h: Hasher, m: InfoMap, vvTried: seq<seq<nat>>, k: nat, p: nat, q: nat)
    requires TriedOk(h, m, vvTried) && k < |vvTried| && p < |vvTried[k]| && q < |vvTried[k]|
    ensures TriedOk(h, m, vvTried[k := Swapped(vvTried[k], p, q)])
  {
    var s := vvTried[k];
    var t := Swapped(s, p, q);
    forall id ensures id in s <==> id in t {
      if id in s {
        var i :| 0 <= i < |s| && s[i] == id;
        assert t[if i == p then q else if i == q then p else i] == id;
      }
    }
  }

  // ---- choosing what to evict ----

  /** Rounds of shuffling a tried bucket: the bucket, the entry found to be the oldest, the place recorded for it. */
  datatype Inspection = Inspection(bucket: seq<nat>, oldest: int, pos: int)

  ghost predicate PicksOk(s: seq<nat>, picks: seq<nat>) {
    |picks| <= |s| && forall i :: 0 <= i < |picks| ==> i <= picks[i] < |s|
  }

  lemma SwappedMembers(s: seq<nat>, p: nat, q: nat)
    requires p < |s| && q < |s|
    ensures forall x :: x in Swapped(s, p, q) <==> x in s
  {
    var t := Swapped(s, p, q);
    forall x ensures x in t <==> x in s {
      if x in s {
        var i :| 0 <= i < |s| && s[i] == x;
        assert t[if i == p then q else if i == q then p else i] == x;
      }
    }
  }

  lemma SwappedDistinct(s: seq<nat>, p: nat, q: nat)
    requires p < |s| && q < |s| && NoDuplicates(s)
    ensures NoDuplicates(Swapped(s, p, q))
  {
  }

  /** Round i swaps place p with place i and looks at the entry brought to i. */
  ghost function InspectRound(m: InfoMap, r: Inspection, i: nat, p: nat): (r': Inspection)
    requires i < |r.bucket| && p < |r.bucket| && (forall x :: x in r.bucket ==> x in m) && (i > 0 ==> r.oldest in m)
    ensures r'.bucket == Swapped(r.bucket, p, i)
  {
    var t := r.bucket[p];
    var bucket := Swapped(r.bucket, p, i);
    if i == 0 || m[t].nLastSuccess < m[r.oldest].nLastSuccess then Inspection(bucket, t, p)
    else r.(bucket := bucket)
  }

  ghost function Inspect(m: InfoMap, s: seq<nat>, picks: seq<nat>): (r: Inspection)
    requires PicksOk(s, picks) && forall x :: x in s ==> x in m
    ensures |r.bucket| == |s| && forall x :: x in r.bucket <==> x in s
    ensures picks == [] ==> r.oldest == -1
    ensures picks != [] ==> r.oldest in s && 0 <= r.pos < |s|
    decreases |picks|
  {
    if picks == [] then Inspection(s, -1, -1)
    else
      var r := Inspect(m, s, picks[..|picks| - 1]);
      SwappedMembers(r.bucket, picks[|picks| - 1], |picks| - 1);
      InspectRound(m, r, |picks| - 1, picks[|picks| - 1])
  }

  lemma InspectNext(m: InfoMap, s: seq<nat>, picks: seq<nat>, p: nat)
    requires PicksOk(s, picks) && |picks| <= p < |s| && forall x :: x in s ==> x in m
    ensures PicksOk(s, picks + [p])
    ensures Inspect(m, s, picks + [p]) == InspectRound(m, Inspect(m, s, picks), |picks|, p)
  {
    assert (picks + [p])[..|picks|] == picks;
  }

  /** The shuffled bucket holds the same entries. */
  lemma {:induction false} InspectPermutes(m: InfoMap, s: seq<nat>, picks: seq<nat>)
    requires PicksOk(s, picks) && forall x :: x in s ==> x in m
    ensures multiset(Inspect(m, s, picks).bucket) == multiset(s)
    ensures NoDuplicates(s) ==> NoDuplicates(Inspect(m, s, picks).bucket)
    decreases |picks|
  {
    if picks != [] {
      var n := |picks| - 1;
      InspectPermutes(m, s, picks[..n]);
      var bucket := Inspect(m, s, picks[..n]).bucket;
      assert Inspect(m, s, picks).bucket == Swapped(bucket, picks[n], n);
      hide Inspect, NoDuplicates;
      if NoDuplicates(s) { SwappedDistinct(bucket, picks[n], n); }
    }
  }

  // ---- which entry stands at the place that is returned ----

  /** The entry at place p before round j, which only picks of that place can have changed. */
  function EntryAt(s: seq<nat>, picks: seq<nat>, j: nat, p: nat): nat
    requires j <= |picks| <= |s| && j <= p < |s|
  {
    if j == 0 then s[p] else if picks[j - 1] == p then EntryAt(s, picks, j - 1, j - 1) else EntryAt(s, picks, j - 1, p)
  }

  /** The entry round i looks at. */
  function Inspected(s: seq<nat>, picks: seq<nat>, i: nat): nat
    requires PicksOk(s, picks) && i < |picks|
  {
    EntryAt(s, picks, i, picks[i])
  }

  /** The entry at place p after all rounds: the one inspected in round p, or what the picks moved there. */
  function EntryLeft(s: seq<nat>, picks: seq<nat>, p: nat): nat
    requires PicksOk(s, picks) && p < |s|
  {
    if p < |picks| then Inspected(s, picks, p) else EntryAt(s, picks, |picks|, p)
  }

  lemma {:induction false} EntryAtPrefix(s: seq<nat>, picks: seq<nat>, p: nat, j: nat, q: nat)
    requires j <= |picks| < |s| && j <= q < |s|
    ensures EntryAt(s, picks + [p], j, q) == EntryAt(s, picks, j, q)
  {
    if j > 0 {
      EntryAtPrefix(s, picks, p, j - 1, j - 1);
      EntryAtPrefix(s, picks, p, j - 1, q);
    }
  }

  /** Round k is the first that looks at an entry than which no inspected one is older. */
  ghost predicate FirstOldest(m: InfoMap, s: seq<nat>, picks: seq<nat>, k: nat)
    requires PicksOk(s, picks) && k < |picks| && forall i :: 0 <= i < |picks| ==> Inspected(s, picks, i) in m
  {
    var age := m[Inspected(s, picks, k)].nLastSuccess;
    forall i :: 0 <= i < |picks| ==>
      age <= m[Inspected(s, picks, i)].nLastSuccess && (i < k ==> age < m[Inspected(s, picks, i)].nLastSuccess)
  }

  lemma {:induction false} EntryAtMember(s: seq<nat>, picks: seq<nat>, j: nat, p: nat)
    requires j <= |picks| <= |s| && j <= p < |s|
    ensures EntryAt(s, picks, j, p) in s
  {
    if j > 0 { EntryAtMember(s, picks, j - 1, if picks[j - 1] == p then j - 1 else p); }
  }

  lemma InspectedMember(s: seq<nat>, picks: seq<nat>)
    requires PicksOk(s, picks)
    ensures forall i :: 0 <= i < |picks| ==> Inspected(s, picks, i) in s
  {
    forall i | 0 <= i < |picks| ensures Inspected(s, picks, i) in s { EntryAtMember(s, picks, i, picks[i]); }
  }

  /** One more pick leaves what was inspected, and swaps two of the other places. */
  lemma PickNext(s: seq<nat>, picks: seq<nat>, p: nat)
    requires PicksOk(s, picks + [p]) && |picks| < |s| && p < |s|
    ensures PicksOk(s, picks)
    ensures forall i :: 0 <= i < |picks| ==> Inspected(s, picks + [p], i) == Inspected(s, picks, i)
    ensures Inspected(s, picks + [p], |picks|) == EntryLeft(s, picks, p)
    ensures forall q :: |picks| < q < |s| ==>
      EntryLeft(s, picks + [p], q) == EntryLeft(s, picks, if q == p then |picks| else q)
  {
    var n, all := |picks|, picks + [p];
    assert forall i :: 0 <= i < n ==> all[i] == picks[i];
    assert all[n] == p;
    forall i | 0 <= i < n ensures Inspected(s, all, i) == Inspected(s, picks, i) {
      EntryAtPrefix(s, picks, p, i, picks[i]);
    }
    forall q | n <= q < |s| ensures EntryAt(s, all, n, q) == EntryAt(s, picks, n, q) {
      EntryAtPrefix(s, picks, p, n, q);
    }
  }

  /** The oldest entry found and the place recorded for it come from one round, the first with such an entry. */
  ghost predicate FoundAt(m: InfoMap, s: seq<nat>, picks: seq<nat>, r: Inspection, k: nat)
    requires PicksOk(s, picks) && forall i :: 0 <= i < |picks| ==> Inspected(s, picks, i) in m
  {
    k < |picks| && FirstOldest(m, s, picks, k) && r.oldest == Inspected(s, picks, k) && r.pos == picks[k]
  }

  lemma FoundNext(m: InfoMap, s: seq<nat>, picks: seq<nat>, p: nat, r: Inspection, r': Inspection, k: nat)
    requires PicksOk(s, picks) && PicksOk(s, picks + [p]) && |picks| < |s|
    requires (forall i :: 0 <= i < |picks| ==> Inspected(s, picks, i) in m)
      && forall i :: 0 <= i < |picks + [p]| ==> Inspected(s, picks + [p], i) in m
    requires forall i :: 0 <= i < |picks| ==> Inspected(s, picks + [p], i) == Inspected(s, picks, i)
    requires FoundAt(m, s, picks, r, k)
    requires var t := Inspected(s, picks + [p], |picks|);
      if m[t].nLastSuccess < m[r.oldest].nLastSuccess then r'.oldest == t && r'.pos == p
      else r'.oldest == r.oldest && r'.pos == r.pos
    ensures FoundAt(m, s, picks + [p], r', if r'.oldest == r.oldest && r'.pos == r.pos then k else |picks|)
      || FoundAt(m, s, picks + [p], r', |picks|)
  {
    hide Inspected;
    var n, all := |picks|, picks + [p];
    assert forall i :: 0 <= i < n ==> all[i] == picks[i];
    var t := Inspected(s, all, n);
    if m[t].nLastSuccess < m[r.oldest].nLastSuccess {
      assert FoundAt(m, s, all, r', n);
    } else {
      assert FoundAt(m, s, all, r', k);
    }
  }

  /** The walk in closed form: where every entry ends up, which one was found the oldest, and the place recorded. */
  lemma {:induction false} InspectIs(m: InfoMap, s: seq<nat>, picks: seq<nat>)
    requires PicksOk(s, picks) && forall x :: x in s ==> x in m
    ensures forall p :: 0 <= p < |s| ==> Inspect(m, s, picks).bucket[p] == EntryLeft(s, picks, p)
    ensures forall i :: 0 <= i < |picks| ==> Inspected(s, picks, i) in m
    ensures picks != [] ==> exists k :: FoundAt(m, s, picks, Inspect(m, s, picks), k)
    decreases |picks|
  {
    InspectedMember(s, picks);
    if picks != [] {
      var n, p := |picks| - 1, picks[|picks| - 1];
      var before := picks[..n];
      assert before + [p] == picks;
      InspectIs(m, s, before);
      InspectNext(m, s, before, p);
      InspectStep(m, s, before, p, Inspect(m, s, before), Inspect(m, s, picks));
    }
  }

  /** One round keeps the closed form. */
  lemma InspectStep(m: InfoMap, s: seq<nat>, before: seq<nat>, p: nat, r: Inspection, r': Inspection)
    requires PicksOk(s, before) && PicksOk(s, before + [p]) && |before| <= p < |s| == |r.bucket|
    requires (forall i :: 0 <= i < |before| ==> Inspected(s, before, i) in m)
      && forall i :: 0 <= i < |before + [p]| ==> Inspected(s, before + [p], i) in m
    requires forall q :: 0 <= q < |s| ==> r.bucket[q] == EntryLeft(s, before, q)
    requires before != [] ==> r.oldest in m && exists k :: FoundAt(m, s, before, r, k)
    requires (forall x :: x in r.bucket ==> x in m) && r' == InspectRound(m, r, |before|, p)
    ensures forall q :: 0 <= q < |s| ==> r'.bucket[q] == EntryLeft(s, before + [p], q)
    ensures exists k :: FoundAt(m, s, before + [p], r', k)
  {
    hide EntryAt, Inspected, EntryLeft, FirstOldest;
    PickNext(s, before, p);
    LeftIs(s, before, p, r, r');
    if before != [] {
      var k :| FoundAt(m, s, before, r, k);
      FoundNext(m, s, before, p, r, r', k);
    } else {
      FoundFirst(m, s, before + [p], r');
    }
  }

  lemma FoundFirst(m: InfoMap, s: seq<nat>, picks: seq<nat>, r: Inspection)
    requires PicksOk(s, picks) && |picks| == 1 && Inspected(s, picks, 0) in m
    requires r.oldest == Inspected(s, picks, 0) && r.pos == picks[0]
    ensures FoundAt(m, s, picks, r, 0)
  {
  }

  lemma LeftIs(s: seq<nat>, before: seq<nat>, p: nat, r: Inspection, r': Inspection)
    requires PicksOk(s, before) && PicksOk(s, before + [p]) && p < |s| && |before| < |s| == |r.bucket|
    requires r'.bucket == Swapped(r.bucket, p, |before|)
    requires forall q :: 0 <= q < |s| ==> r.bucket[q] == EntryLeft(s, before, q)
    ensures forall q :: 0 <= q < |s| ==> r'.bucket[q] == EntryLeft(s, before + [p], q)
  {
    PickNext(s, before, p);
    var n, all := |before|, before + [p];
    hide EntryAt, Inspected;
    forall q | 0 <= q < |s| ensures r'.bucket[q] == EntryLeft(s, all, q) {
      if q < n {
        assert EntryLeft(s, all, q) == Inspected(s, all, q) && EntryLeft(s, before, q) == Inspected(s, before, q);
      }
    }
  }

  /** No inspected entry is older than the one at the place that is returned. */
  ghost predicate ReturnsOldest(m: InfoMap, s: seq<nat>, picks: seq<nat>)
    requires PicksOk(s, picks) && picks != [] && forall x :: x in s ==> x in m
  {
    var r := Inspect(m, s, picks);
    forall i :: 0 <= i < |picks| ==> m[r.bucket[r.pos]].nLastSuccess <= m[r.bucket[i]].nLastSuccess
  }

  /** It is so exactly when the first round that looks at an oldest entry picks it from its own place, or picks the
      place of a later round that looks at an equally old one, or picks a place left to an entry that is as old and
      was never looked at. */
  lemma ReturnedPlace(m: InfoMap, s: seq<nat>, picks: seq<nat>, k: nat)
    requires PicksOk(s, picks) && k < |picks| && forall x :: x in s ==> x in m
    requires (forall i :: 0 <= i < |picks| ==> Inspected(s, picks, i) in m) && FirstOldest(m, s, picks, k)
    ensures Inspect(m, s, picks).pos == picks[k]
    ensures EntryLeft(s, picks, picks[k]) in m
    ensures ReturnsOldest(m, s, picks) <==>
      var age, p := m[Inspected(s, picks, k)].nLastSuccess, picks[k];
      if p < |picks| then p == k || m[Inspected(s, picks, p)].nLastSuccess == age
      else m[EntryAt(s, picks, |picks|, p)].nLastSuccess <= age
  {
    InspectIs(m, s, picks);
    var r := Inspect(m, s, picks);
    var k' :| FoundAt(m, s, picks, r, k');
    hide Inspect, EntryAt, Inspected;
    assert k' == k;
    assert r.bucket[r.pos] == EntryLeft(s, picks, picks[k]) && r.bucket[r.pos] in r.bucket;
    forall i | 0 <= i < |picks| ensures r.bucket[i] == Inspected(s, picks, i) {
      assert r.bucket[i] == EntryLeft(s, picks, i);
    }
  }
}
