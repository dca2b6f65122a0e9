/** Address manager entries and the consistency of its indexes (src/addrman.h, src/addrman.cpp: Check_). */
module AddrInfo {
  const ADDRMAN_TRIED_BUCKET_COUNT: nat := 64
  const ADDRMAN_TRIED_BUCKET_SIZE: nat := 64
  const ADDRMAN_NEW_BUCKET_COUNT: nat := 256
  const ADDRMAN_NEW_BUCKET_SIZE: nat := 64
  const ADDRMAN_NEW_BUCKETS_PER_ADDRESS: nat := 4
  const ADDRMAN_TRIED_ENTRIES_INSPECT_ON_EVICT: nat := 4
  const ADDRMAN_HORIZON_DAYS: int := 30
  const ADDRMAN_RETRIES: int := 3
  const ADDRMAN_MAX_FAILURES: int := 10
  const ADDRMAN_MIN_FAIL_DAYS: int := 7
  const ADDRMAN_GETADDR_MAX_PCT: nat := 23
  const ADDRMAN_GETADDR_MAX: nat := 2500

  /** A network address without a port. */
  type NetAddr = nat

  datatype Service = Service(ip: NetAddr, port: nat)

  /** The service bits that are set. */
  type Services = set<nat>

  /** An address as it is announced. */
  datatype Address = Address(svc: Service, nServices: Services, nTime: int)

  datatype Info = Info(
    svc: Service, nServices: Services, nTime: int, nLastTry: int,
    source: NetAddr, nLastSuccess: int, nAttempts: int,
    nRefCount: int, fInTried: bool, nRandomPos: int)
  {
    /** Bad enough to be deleted. */
    predicate IsTerrible(nNow: int) {
      if nLastTry != 0 && nLastTry >= nNow - 60 then false
      else if nTime > nNow + 10 * 60 then true
      else if nTime == 0 || nNow - nTime > ADDRMAN_HORIZON_DAYS * 86400 then true
      else if nLastSuccess == 0 && nAttempts >= ADDRMAN_RETRIES then true
      else nNow - nLastSuccess > ADDRMAN_MIN_FAIL_DAYS * 86400 && nAttempts >= ADDRMAN_MAX_FAILURES
    }
  }

  /** An entry not tried within the last minute is bad enough if its last announcement lies ahead, is unknown, or more
      than 30 days back, if three attempts brought no success ever, or if ten did not since a week. */
  lemma TerribleWhen(info: Info, nNow: int)
    ensures info.IsTerrible(nNow) <==>
      && (info.nLastTry == 0 || nNow - info.nLastTry > 60)
      && (|| info.nTime - nNow > 600
          || info.nTime == 0
          || nNow - info.nTime > 2_592_000
          || (info.nLastSuccess == 0 && info.nAttempts >= 3)
          || (nNow - info.nLastSuccess > 604_800 && info.nAttempts >= 10))
  {
  }

  type InfoMap = map<nat, Info>

  /** The program's keyed hashes, as functions of what they hash: address and source group, and service. */
  datatype Hasher = Hasher(newHash: (NetAddr, NetAddr) -> nat, triedHash: Service -> nat) {
    function NewBucket(svc: Service, src: NetAddr): (b: nat)
      ensures b < ADDRMAN_NEW_BUCKET_COUNT
    {
      newHash(svc.ip, src) % ADDRMAN_NEW_BUCKET_COUNT
    }

    function TriedBucket(svc: Service): (k: nat)
      ensures k < ADDRMAN_TRIED_BUCKET_COUNT
    {
      triedHash(svc) % ADDRMAN_TRIED_BUCKET_COUNT
    }
  }

  // ---- the invariant, index by index ----

  ghost predicate IdsOk(m: InfoMap, nIdCount: nat) {
    forall id :: id in m ==> id < nIdCount
  }

  /** mapInfo and mapAddr are inverse to each other. */
  ghost predicate AddrOk(m: InfoMap, mapAddr: map<NetAddr, nat>) {
    && (forall id :: id in m ==> m[id].svc.ip in mapAddr && mapAddr[m[id].svc.ip] == id)
    && (forall ip :: ip in mapAddr ==> mapAddr[ip] in m && m[mapAddr[ip]].svc.ip == ip)
  }

  /** mapInfo and vRandom are inverse to each other. */
  ghost predicate RandomOk(m: InfoMap, vRandom: seq<nat>) {
    && (forall id :: id in m ==> 0 <= m[id].nRandomPos < |vRandom| && vRandom[m[id].nRandomPos] == id)
    && (forall p :: 0 <= p < |vRandom| ==> vRandom[p] in m && m[vRandom[p]].nRandomPos == p)
  }

  /** The new buckets that hold an id. */
  ghost function BucketsOf(vvNew: seq<set<nat>>, id: nat): set<nat> {
    set b | 0 <= b < |vvNew| && id in vvNew[b]
  }

  /** The reference count of an entry. pend is an id whose count is already one ahead of the buckets, limbo
      one that is in no table at the moment; -1 stands for none. */
  ghost predicate RefOk(m: InfoMap, vvNew: seq<set<nat>>, id: nat, pend: int, limbo: int)
    requires id in m
  {
    && m[id].nRefCount == |BucketsOf(vvNew, id)| + (if id == pend then 1 else 0)
    && (if id == limbo then !m[id].fInTried
        else if m[id].fInTried then m[id].nRefCount == 0
        else 1 <= m[id].nRefCount <= ADDRMAN_NEW_BUCKETS_PER_ADDRESS)
  }

  ghost predicate NewOk(m: InfoMap, vvNew: seq<set<nat>>, pend: int, limbo: int) {
    && |vvNew| == ADDRMAN_NEW_BUCKET_COUNT
    && (forall b, id :: 0 <= b < |vvNew| && id in vvNew[b] ==> id in m)
    && (forall id :: id in m ==> RefOk(m, vvNew, id, pend, limbo))
  }

  ghost predicate NoDuplicates(s: seq<nat>) {
    forall i, j :: 0 <= i < j < |s| ==> s[i] != s[j]
  }

  /** Every tried entry stands exactly once, in the bucket of its service. */
  ghost predicate TriedOk(h: Hasher, m: InfoMap, vvTried: seq<seq<nat>>) {
    && |vvTried| == ADDRMAN_TRIED_BUCKET_COUNT
    && (forall k :: 0 <= k < |vvTried| ==> NoDuplicates(vvTried[k]))
    && (forall k, id :: 0 <= k < |vvTried| && id in vvTried[k] ==>
          id in m && m[id].fInTried && h.TriedBucket(m[id].svc) == k)
    && (forall id :: id in m && m[id].fInTried ==> id in vvTried[h.TriedBucket(m[id].svc)])
  }

  ghost function NewIds(m: InfoMap): set<nat> {
    set id | id in m && !m[id].fInTried
  }

  /** The new entries but for one. */
  ghost function Settled(m: InfoMap, limbo: int): set<nat> {
    set id | id in m && !m[id].fInTried && id != limbo
  }

  ghost function TriedIds(m: InfoMap): set<nat> {
    set id | id in m && m[id].fInTried
  }

  ghost predicate CountsOk(m: InfoMap, nNew: int, nTried: int, limbo: int) {
    nNew == |Settled(m, limbo)| && nTried == |TriedIds(m)|
  }

  ghost predicate CapsOk(vvNew: seq<set<nat>>, vvTried: seq<seq<nat>>) {
    && (forall b :: 0 <= b < |vvNew| ==> |vvNew[b]| <= ADDRMAN_NEW_BUCKET_SIZE)
    && (forall k :: 0 <= k < |vvTried| ==> |vvTried[k]| <= ADDRMAN_TRIED_BUCKET_SIZE)
  }

  /** The times Check_ looks at: tried entries once succeeded, nothing is negative. */
  ghost predicate TimesOk(m: InfoMap) {
    forall id :: id in m ==>
      m[id].nLastTry >= 0 && m[id].nLastSuccess >= 0 && (m[id].fInTried ==> m[id].nLastSuccess != 0)
  }

  // ---- what changes to entries leave intact ----

  /** Two entry maps that differ at most in times, services and positions in vRandom. */
  ghost predicate SameTables(m1: InfoMap, m2: InfoMap) {
    && m1.Keys == m2.Keys
    && forall id :: id in m1 ==>
         && m1[id].svc == m2[id].svc
         && m1[id].fInTried == m2[id].fInTried
         && m1[id].nRefCount == m2[id].nRefCount
  }

  lemma SameTablesKeep(h: Hasher, m1: InfoMap, m2: InfoMap, nIdCount: nat, mapAddr: map<NetAddr, nat>,
                       vvNew: seq<set<nat>>, vvTried: seq<seq<nat>>, nNew: int, nTried: int, pend: int, limbo: int)
    requires SameTables(m1, m2)
    ensures IdsOk(m1, nIdCount) ==> IdsOk(m2, nIdCount)
    ensures AddrOk(m1, mapAddr) ==> AddrOk(m2, mapAddr)
    ensures NewOk(m1, vvNew, pend, limbo) ==> NewOk(m2, vvNew, pend, limbo)
    ensures TriedOk(h, m1, vvTried) ==> TriedOk(h, m2, vvTried)
    ensures CountsOk(m1, nNew, nTried, limbo) ==> CountsOk(m2, nNew, nTried, limbo)
  {
    forall id ensures id in m1 <==> id in m2 { assert id in m1.Keys <==> id in m2.Keys; }
    assert Settled(m1, limbo) == Settled(m2, limbo) && TriedIds(m1) == TriedIds(m2);
    if NewOk(m1, vvNew, pend, limbo) {
      forall id | id in m2 ensures RefOk(m2, vvNew, id, pend, limbo) {
        assert RefOk(m1, vvNew, id, pend, limbo);
      }
    }
  }

  // ---- the random order ----

  function Swapped(v: seq<nat>, p: nat, q: nat): seq<nat>
    requires p < |v| && q < |v|
  {
    v[p := v[q]][q := v[p]]
  }

  /** The entries after two positions of vRandom trade places. */
  function SwappedInfo(m: InfoMap, v: seq<nat>, p: nat, q: nat): InfoMap
    requires p < |v| && q < |v| && v[p] in m && v[q] in m
  {
    if p == q then m
    else
      var m1 := m[v[p] := m[v[p]].(nRandomPos := q)];
      m1[v[q] := m1[v[q]].(nRandomPos := p)]
  }

  lemma SwapKeeps(m: InfoMap, v: seq<nat>, p: nat, q: nat)
    requires RandomOk(m, v) && p < |v| && q < |v|
    ensures RandomOk(SwappedInfo(m, v, p, q), Swapped(v, p, q))
    ensures SameTables(m, SwappedInfo(m, v, p, q))
    ensures multiset(Swapped(v, p, q)) == multiset(v)
  {
    var m', v' := SwappedInfo(m, v, p, q), Swapped(v, p, q);
    forall id | id in m' ensures 0 <= m'[id].nRandomPos < |v'| && v'[m'[id].nRandomPos] == id {
      assert v[m[id].nRandomPos] == id;
    }
  }

  // ---- bucket sets ----

  lemma BucketsAfterErase(vvNew: seq<set<nat>>, b: nat, id: nat, other: nat)
    requires b < |vvNew|
    ensures BucketsOf(vvNew[b := vvNew[b] - {id}], id) == BucketsOf(vvNew, id) - {b}
    ensures other != id ==> BucketsOf(vvNew[b := vvNew[b] - {id}], other) == BucketsOf(vvNew, other)
  {
  }

  lemma BucketsAfterInsert(vvNew: seq<set<nat>>, b: nat, id: nat, other: nat)
    requires b < |vvNew|
    ensures BucketsOf(vvNew[b := vvNew[b] + {id}], id) == BucketsOf(vvNew, id) + {b}
    ensures other != id ==> BucketsOf(vvNew[b := vvNew[b] + {id}], other) == BucketsOf(vvNew, other)
  {
  }
}
