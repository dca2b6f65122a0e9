/** What the address manager keeps on disk, and what loading it back rebuilds (src/addrman.h). */
module AddrFile {
  import opened AddrInfo
  import opened AddrTables
  import opened AddrMan
  import opened AddrCheck

  /** The fields of an entry that are stored. */
  datatype Persisted = Persisted(
    svc: Service, nServices: Services, nTime: int, source: NetAddr, nLastSuccess: int, nAttempts: int)

  function Persist(info: Info): Persisted {
    Persisted(info.svc, info.nServices, info.nTime, info.source, info.nLastSuccess, info.nAttempts)
  }

  /** A default entry with the stored fields read into it. */
  function Restore(p: Persisted): Info {
    Info(p.svc, p.nServices, p.nTime, 0, p.source, p.nLastSuccess, p.nAttempts, 0, false, -1)
  }

  /** The new entries, the tried entries, and for each new bucket the numbers of its entries. */
  datatype AddrDat = AddrDat(newInfos: seq<Persisted>, triedInfos: seq<Persisted>, buckets: seq<seq<nat>>)

  // ---- saving ----

  /** An order of the entries: the first nNew of it are the new ones, the rest the tried ones. */
  ghost predicate OrderOf(m: InfoMap, news: seq<nat>, trieds: seq<nat>) {
    NoDuplicates(news) && NoDuplicates(trieds) && Members(news) == NewIds(m) && Members(trieds) == TriedIds(m)
  }

  /** A list of numbers stands for a bucket of ids. */
  ghost predicate Numbers(news: seq<nat>, vNew: set<nat>, list: seq<nat>) {
    && NoDuplicates(list)
    && (forall n :: n in list ==> n < |news| && news[n] in vNew)
    && (forall n :: 0 <= n < |news| && news[n] in vNew ==> n in list)
  }

  ghost predicate Infos(m: InfoMap, ids: seq<nat>, infos: seq<Persisted>) {
    |infos| == |ids| && forall n :: 0 <= n < |ids| ==> ids[n] in m && infos[n] == Persist(m[ids[n]])
  }

  /** What a file says about the tables it was written from. */
  ghost predicate Written(m: InfoMap, vvNew: seq<set<nat>>, news: seq<nat>, trieds: seq<nat>, f: AddrDat) {
    && OrderOf(m, news, trieds)
    && Infos(m, news, f.newInfos) && Infos(m, trieds, f.triedInfos)
    && |f.buckets| == |vvNew|
    && forall b :: 0 <= b < |vvNew| ==> Numbers(news, vvNew[b], f.buckets[b])
  }

  lemma FullSubset(s: seq<nat>, t: set<nat>)
    requires NoDuplicates(s) && Members(s) <= t && |s| == |t|
    ensures Members(s) == t
  {
    DistinctLength(s);
    SameSize(Members(s), t);
  }

  lemma NoneLeft(s: seq<nat>, t: set<nat>)
    requires NoDuplicates(s) && Members(s) == t
    ensures |s| == |t|
  {
    DistinctLength(s);
  }

  /** The first entries, in ascending order of their ids, of one kind: the new ones with their numbers. */
  method SaveNew(m: InfoMap, nNew: nat) returns (infos: seq<Persisted>, mapUnkIds: map<nat, nat>, ghost news: seq<nat>)
    requires nNew == |NewIds(m)| && forall id :: id in m ==> (m[id].nRefCount != 0 <==> !m[id].fInTried)
    ensures NoDuplicates(news) && Members(news) == NewIds(m) && Infos(m, news, infos) && |infos| == nNew
    ensures forall n :: 0 <= n < |news| ==> news[n] in mapUnkIds && mapUnkIds[news[n]] == n
  {
    var todo, nIds := m.Keys, 0;
    infos, mapUnkIds, news := [], map[], [];
    while todo != {}
      invariant todo <= m.Keys && nIds == |news|
      invariant NoDuplicates(news) && Infos(m, news, infos)
      invariant forall id :: id in news <==> id in m && id !in todo && !m[id].fInTried
      invariant forall n :: 0 <= n < |news| ==> news[n] in mapUnkIds && mapUnkIds[news[n]] == n
      decreases todo
    {
      if nIds == nNew {
        FullSubset(news, NewIds(m));
        return;
      }
      var it := MinOf(todo);
      mapUnkIds := mapUnkIds[it := nIds];
      if m[it].nRefCount != 0 {
        infos, news := infos + [Persist(m[it])], news + [it];
        nIds := nIds + 1;
      }
      todo := todo - {it};
    }
    NoneLeft(news, NewIds(m));
  }

  method SaveTried(m: InfoMap, nTried: nat) returns (infos: seq<Persisted>, ghost trieds: seq<nat>)
    requires nTried == |TriedIds(m)|
    ensures NoDuplicates(trieds) && Members(trieds) == TriedIds(m) && Infos(m, trieds, infos) && |infos| == nTried
  {
    var todo, nIds := m.Keys, 0;
    infos, trieds := [], [];
    while todo != {}
      invariant todo <= m.Keys && nIds == |trieds|
      invariant NoDuplicates(trieds) && Infos(m, trieds, infos)
      invariant forall id :: id in trieds <==> id in m && id !in todo && m[id].fInTried
      decreases todo
    {
      if nIds == nTried {
        FullSubset(trieds, TriedIds(m));
        return;
      }
      var it := MinOf(todo);
      if m[it].fInTried {
        infos, trieds := infos + [Persist(m[it])], trieds + [it];
        nIds := nIds + 1;
      }
      todo := todo - {it};
    }
    NoneLeft(trieds, TriedIds(m));
  }

  method SaveBucket(vNew: set<nat>, mapUnkIds: map<nat, nat>, ghost news: seq<nat>) returns (list: seq<nat>)
    requires vNew <= Members(news)
    requires forall n :: 0 <= n < |news| ==> news[n] in mapUnkIds && mapUnkIds[news[n]] == n
    ensures Numbers(news, vNew, list)
  {
    var todo := vNew;
    list := [];
    while todo != {}
      invariant todo <= vNew && NoDuplicates(list)
      invariant forall n :: n in list ==> n < |news| && news[n] in vNew && news[n] !in todo
      invariant forall n :: 0 <= n < |news| && news[n] in vNew && news[n] !in todo ==> n in list
      decreases todo
    {
      var it := MinOf(todo);
      assert it in news;
      list := list + [mapUnkIds[it]];
      todo := todo - {it};
    }
  }

  method Save(a: CAddrMan) returns (f: AddrDat, ghost news: seq<nat>, ghost trieds: seq<nat>)
    requires a.Valid()
    ensures Written(a.mapInfo, a.vvNew, news, trieds, f)
    ensures |f.newInfos| == a.nNew && |f.triedInfos| == a.nTried
  {
    hide NewOk, NewIds, TriedIds, AddrOk, RandomOk, TriedOk, CapsOk, CountsOk, Settled, Members, NoDuplicates;
    RefCounts(a.mapInfo, a.vvNew);
    KindCounts(a.mapInfo, a.nNew, a.nTried);
    var newInfos, mapUnkIds, triedInfos;
    newInfos, mapUnkIds, news := SaveNew(a.mapInfo, a.nNew);
    triedInfos, trieds := SaveTried(a.mapInfo, a.nTried);
    var buckets := SaveBuckets(a, mapUnkIds, news);
    f := AddrDat(newInfos, triedInfos, buckets);
  }

  method SaveBuckets(a: CAddrMan, mapUnkIds: map<nat, nat>, ghost news: seq<nat>) returns (buckets: seq<seq<nat>>)
    requires forall b :: 0 <= b < |a.vvNew| ==> a.vvNew[b] <= Members(news)
    requires forall n :: 0 <= n < |news| ==> news[n] in mapUnkIds && mapUnkIds[news[n]] == n
    ensures |buckets| == |a.vvNew| && forall b :: 0 <= b < |a.vvNew| ==> Numbers(news, a.vvNew[b], buckets[b])
  {
    hide Numbers, Members;
    buckets := [];
    for b := 0 to |a.vvNew|
      invariant |buckets| == b && forall c :: 0 <= c < b ==> Numbers(news, a.vvNew[c], buckets[c])
    {
      var list := SaveBucket(a.vvNew[b], mapUnkIds, news);
      buckets := buckets + [list];
    }
  }

  lemma KindCounts(m: InfoMap, nNew: int, nTried: int)
    requires CountsOk(m, nNew, nTried, -1)
    ensures nNew == |NewIds(m)| && nTried == |TriedIds(m)|
  {
    assert Settled(m, -1) == NewIds(m);
  }

  /** New entries, and only they, have references and stand in buckets. */
  lemma RefCounts(m: InfoMap, vvNew: seq<set<nat>>)
    requires NewOk(m, vvNew, -1, -1)
    ensures forall id :: id in m ==> (m[id].nRefCount != 0 <==> !m[id].fInTried)
    ensures forall b :: 0 <= b < |vvNew| ==> vvNew[b] <= NewIds(m)
  {
    forall id | id in m ensures m[id].nRefCount != 0 <==> !m[id].fInTried {
      assert RefOk(m, vvNew, id, -1, -1);
    }
    forall b, id | 0 <= b < |vvNew| && id in vvNew[b] ensures id in NewIds(m) {
      assert RefOk(m, vvNew, id, -1, -1);
      assert b in BucketsOf(vvNew, id);
    }
  }

  // ---- loading ----

  /** The addresses of a file: the new entries, then the tried ones. */
  ghost function IpAt(f: AddrDat, i: nat): NetAddr
    requires i < |f.newInfos| + |f.triedInfos|
  {
    if i < |f.newInfos| then f.newInfos[i].svc.ip else f.triedInfos[i - |f.newInfos|].svc.ip
  }

  ghost predicate DistinctAddresses(f: AddrDat) {
    forall i, j :: 0 <= i < j < |f.newInfos| + |f.triedInfos| ==> IpAt(f, i) != IpAt(f, j)
  }

  /** Which of the first n tried entries find room in their bucket. */
  ghost function KeptOf(h: Hasher, infos: seq<Persisted>, n: nat): (kept: seq<nat>)
    requires n <= |infos|
    ensures |kept| <= n && forall j :: 0 <= j < |kept| ==> kept[j] < n
  {
    if n == 0 then []
    else
      var before := KeptOf(h, infos, n - 1);
      if Occupancy(h, infos, before, h.TriedBucket(infos[n - 1].svc)) < ADDRMAN_TRIED_BUCKET_SIZE then before + [n - 1]
      else before
  }

  /** How many of the listed entries belong to a tried bucket. */
  ghost function Occupancy(h: Hasher, infos: seq<Persisted>, kept: seq<nat>, k: nat): nat
    requires forall j :: 0 <= j < |kept| ==> kept[j] < |infos|
  {
    if kept == [] then 0
    else
      Occupancy(h, infos, kept[..|kept| - 1], k)
      + if h.TriedBucket(infos[kept[|kept| - 1]].svc) == k then 1 else 0
  }

  lemma OccupancyNext(h: Hasher, infos: seq<Persisted>, kept: seq<nat>, t: nat)
    requires t < |infos| && forall j :: 0 <= j < |kept| ==> kept[j] < |infos|
    ensures forall k ::
      Occupancy(h, infos, kept + [t], k) ==
      Occupancy(h, infos, kept, k) + (if h.TriedBucket(infos[t].svc) == k then 1 else 0)
  {
    assert (kept + [t])[..|kept|] == kept;
  }

  /** The new entries after n of them are read. */
  ghost predicate NewRead(infos: seq<Persisted>, n: nat, m: InfoMap)
    requires n <= |infos|
  {
    forall i :: 0 <= i < n ==> i in m && m[i] == Restore(infos[i]).(nRandomPos := i)
  }

  /** The tried entries kept so far, numbered from base on. */
  ghost predicate TriedRead(infos: seq<Persisted>, kept: seq<nat>, base: nat, m: InfoMap)
    requires forall j :: 0 <= j < |kept| ==> kept[j] < |infos|
  {
    forall i :: base <= i < base + |kept| ==>
      i in m && m[i] == Restore(infos[kept[i - base]]).(nRandomPos := i, fInTried := true)
  }

  ghost predicate Upto(m: InfoMap, n: nat) {
    forall i: nat :: i in m <==> i < n
  }

  ghost predicate IndexesOk(m: InfoMap, n: nat, mapAddr: map<NetAddr, nat>, vRandom: seq<nat>) {
    Upto(m, n) && |vRandom| == n && IdsOk(m, n) && AddrOk(m, mapAddr) && RandomOk(m, vRandom)
  }

  lemma IndexNext(m: InfoMap, n: nat, mapAddr: map<NetAddr, nat>, vRandom: seq<nat>, info: Info)
    requires IndexesOk(m, n, mapAddr, vRandom) && info.svc.ip !in mapAddr && info.nRandomPos == n
    ensures IndexesOk(m[n := info], n + 1, mapAddr[info.svc.ip := n], vRandom + [n])
  {
    assert Upto(m[n := info], n + 1);
    hide IdsOk, AddrOk, RandomOk;
    CreateIndexes(m, n, mapAddr, vRandom, info);
  }

  lemma FreshNew(f: AddrDat, n: nat, m: InfoMap, mapAddr: map<NetAddr, nat>)
    requires DistinctAddresses(f) && n < |f.newInfos|
    requires Upto(m, n) && NewRead(f.newInfos, n, m) && AddrOk(m, mapAddr)
    ensures f.newInfos[n].svc.ip !in mapAddr
  {
    forall i | 0 <= i < n ensures m[i].svc.ip != f.newInfos[n].svc.ip {
      assert IpAt(f, i) != IpAt(f, n);
    }
  }

  /** One turn of the loop over the new entries. */
  method LoadOneNew(a: CAddrMan, f: AddrDat, n: nat)
    requires DistinctAddresses(f) && n < |f.newInfos|
    requires IndexesOk(a.mapInfo, n, a.mapAddr, a.vRandom) && NewRead(f.newInfos, n, a.mapInfo)
    modifies a`mapInfo, a`mapAddr, a`vRandom
    ensures IndexesOk(a.mapInfo, n + 1, a.mapAddr, a.vRandom) && NewRead(f.newInfos, n + 1, a.mapInfo)
  {
    hide AddrOk, RandomOk, IdsOk, DistinctAddresses;
    var info := Restore(f.newInfos[n]);
    FreshNew(f, n, a.mapInfo, a.mapAddr);
    IndexNext(a.mapInfo, n, a.mapAddr, a.vRandom, info.(nRandomPos := n));
    assert |a.vRandom| == n && n !in a.mapInfo;
    hide IndexesOk;
    ghost var m := a.mapInfo;
    a.mapInfo := a.mapInfo[n := info];
    a.mapAddr := a.mapAddr[info.svc.ip := n];
    a.mapInfo := a.mapInfo[n := info.(nRandomPos := |a.vRandom|)];
    assert a.mapInfo == m[n := info.(nRandomPos := n)];
    a.vRandom := a.vRandom + [n];
  }

  /** The loop over the new entries. */
  method LoadNew(a: CAddrMan, f: AddrDat)
    requires DistinctAddresses(f)
    requires a.mapInfo == map[] && a.mapAddr == map[] && a.vRandom == []
    modifies a`mapInfo, a`mapAddr, a`vRandom
    ensures IndexesOk(a.mapInfo, |f.newInfos|, a.mapAddr, a.vRandom)
    ensures NewRead(f.newInfos, |f.newInfos|, a.mapInfo)
  {
    for n := 0 to |f.newInfos|
      invariant IndexesOk(a.mapInfo, n, a.mapAddr, a.vRandom) && NewRead(f.newInfos, n, a.mapInfo)
    {
      hide IndexesOk, NewRead, DistinctAddresses;
      LoadOneNew(a, f, n);
    }
  }

  /** The tables after t of the tried entries are read. */
  ghost predicate TriedLoaded(h: Hasher, f: AddrDat, t: nat, m: InfoMap, nIdCount: nat, vvTried: seq<seq<nat>>)
    requires t <= |f.triedInfos|
  {
    var kept := KeptOf(h, f.triedInfos, t);
    && nIdCount == |f.newInfos| + |kept| && Upto(m, nIdCount)
    && NewRead(f.newInfos, |f.newInfos|, m) && TriedRead(f.triedInfos, kept, |f.newInfos|, m)
    && TriedOk(h, m, vvTried)
    && forall k :: 0 <= k < |vvTried| ==>
         |vvTried[k]| == Occupancy(h, f.triedInfos, kept, k) <= ADDRMAN_TRIED_BUCKET_SIZE
  }

  lemma FreshTried(h: Hasher, f: AddrDat, t: nat, m: InfoMap, nIdCount: nat, mapAddr: map<NetAddr, nat>,
                   vvTried: seq<seq<nat>>)
    requires DistinctAddresses(f) && t < |f.triedInfos|
    requires TriedLoaded(h, f, t, m, nIdCount, vvTried) && AddrOk(m, mapAddr)
    ensures f.triedInfos[t].svc.ip !in mapAddr && |vvTried| == ADDRMAN_TRIED_BUCKET_COUNT
  {
    hide Occupancy, KeptOf;
    var base, kept := |f.newInfos|, KeptOf(h, f.triedInfos, t);
    forall i | 0 <= i < nIdCount ensures m[i].svc.ip != f.triedInfos[t].svc.ip {
      if i < base {
        assert IpAt(f, i) != IpAt(f, base + t);
      } else {
        assert IpAt(f, base + kept[i - base]) != IpAt(f, base + t);
        assert m[i].svc == f.triedInfos[kept[i - base]].svc;
      }
    }
  }

  /** A fresh tried entry at the end of its bucket. */
  lemma TriedAppended(h: Hasher, m: InfoMap, vvTried: seq<seq<nat>>, id: nat, info: Info)
    requires TriedOk(h, m, vvTried) && id !in m && info.fInTried
    ensures var k := h.TriedBucket(info.svc);
      k < |vvTried| && TriedOk(h, m[id := info], vvTried[k := vvTried[k] + [id]])
  {
    var k := h.TriedBucket(info.svc);
    var v := vvTried[k := vvTried[k] + [id]];
    assert id !in vvTried[k] && v[k][|vvTried[k]|] == id;
    forall i | i in m && m[i].fInTried ensures i in v[h.TriedBucket(m[i].svc)] {
      assert i in vvTried[h.TriedBucket(m[i].svc)];
    }
  }

  lemma TriedBuckets(h: Hasher, m: InfoMap, vvTried: seq<seq<nat>>)
    requires TriedOk(h, m, vvTried)
    ensures |vvTried| == ADDRMAN_TRIED_BUCKET_COUNT
  {
  }

  lemma TriedNext(h: Hasher, f: AddrDat, t: nat, m: InfoMap, nIdCount: nat, vvTried: seq<seq<nat>>)
    requires t < |f.triedInfos| && TriedLoaded(h, f, t, m, nIdCount, vvTried)
    ensures var p := f.triedInfos[t]; var k := h.TriedBucket(p.svc);
      if |vvTried[k]| < ADDRMAN_TRIED_BUCKET_SIZE then
        TriedLoaded(h, f, t + 1, m[nIdCount := Restore(p).(nRandomPos := nIdCount, fInTried := true)], nIdCount + 1,
                    vvTried[k := vvTried[k] + [nIdCount]])
      else TriedLoaded(h, f, t + 1, m, nIdCount, vvTried)
  {
    hide TriedOk;
    TriedBuckets(h, m, vvTried);
    var p := f.triedInfos[t];
    var k := h.TriedBucket(p.svc);
    var kept := KeptOf(h, f.triedInfos, t);
    if |vvTried[k]| < ADDRMAN_TRIED_BUCKET_SIZE {
      var info := Restore(p).(nRandomPos := nIdCount, fInTried := true);
      assert KeptOf(h, f.triedInfos, t + 1) == kept + [t];
      OccupancyNext(h, f.triedInfos, kept, t);
      TriedAppended(h, m, vvTried, nIdCount, info);
    }
  }

  /** All the new entries and n of the tried ones are in. */
  ghost predicate Reading(a: CAddrMan, f: AddrDat, n: nat)
    requires n <= |f.triedInfos|
    reads a
  {
    && TriedLoaded(a.hasher, f, n, a.mapInfo, a.nIdCount, a.vvTried)
    && IndexesOk(a.mapInfo, a.nIdCount, a.mapAddr, a.vRandom)
  }

  lemma LoadedCount(a: CAddrMan, f: AddrDat, t: nat)
    requires t <= |f.triedInfos| && Reading(a, f, t)
    ensures a.nIdCount == |f.newInfos| + |KeptOf(a.hasher, f.triedInfos, t)|
  {
    hide KeptOf;
  }

  /** The next tried entry: dropped if its bucket is full, else in all tables. */
  lemma ReadingNext(h: Hasher, f: AddrDat, n: nat, m: InfoMap, nIdCount: nat, mapAddr: map<NetAddr, nat>,
                    vRandom: seq<nat>, vvTried: seq<seq<nat>>)
    requires DistinctAddresses(f) && n < |f.triedInfos|
    requires TriedLoaded(h, f, n, m, nIdCount, vvTried) && IndexesOk(m, nIdCount, mapAddr, vRandom)
    ensures var p := f.triedInfos[n]; var k := h.TriedBucket(p.svc);
      var info := Restore(p).(nRandomPos := |vRandom|, fInTried := true);
      && k < |vvTried|
      && if |vvTried[k]| < ADDRMAN_TRIED_BUCKET_SIZE then
           && TriedLoaded(h, f, n + 1, m[nIdCount := info], nIdCount + 1, vvTried[k := vvTried[k] + [nIdCount]])
           && IndexesOk(m[nIdCount := info], nIdCount + 1, mapAddr[p.svc.ip := nIdCount], vRandom + [nIdCount])
         else TriedLoaded(h, f, n + 1, m, nIdCount, vvTried)
  {
    TriedNext(h, f, n, m, nIdCount, vvTried);
    FreshTried(h, f, n, m, nIdCount, mapAddr, vvTried);
    hide TriedLoaded, DistinctAddresses, AddrOk, RandomOk, IdsOk;
    assert |vRandom| == nIdCount;
    IndexNext(m, nIdCount, mapAddr, vRandom, Restore(f.triedInfos[n]).(nRandomPos := nIdCount, fInTried := true));
  }

  /** One turn of the loop over the tried entries. */
  method LoadOneTried(a: CAddrMan, f: AddrDat, n: nat) returns (lost: bool)
    requires DistinctAddresses(f) && n < |f.triedInfos| && Reading(a, f, n)
    modifies a`mapInfo, a`mapAddr, a`vRandom, a`vvTried, a`nIdCount
    ensures Reading(a, f, n + 1)
    ensures a.nIdCount == old(a.nIdCount) + if lost then 0 else 1
  {
    hide TriedLoaded, DistinctAddresses, IndexesOk;
    ReadingNext(a.hasher, f, n, a.mapInfo, a.nIdCount, a.mapAddr, a.vRandom, a.vvTried);
    var info := Restore(f.triedInfos[n]);
    var k := a.hasher.TriedBucket(info.svc);
    lost := |a.vvTried[k]| >= ADDRMAN_TRIED_BUCKET_SIZE;
    if !lost {
      info := info.(nRandomPos := |a.vRandom|);
      info := info.(fInTried := true);
      a.vRandom := a.vRandom + [a.nIdCount];
      a.mapInfo := a.mapInfo[a.nIdCount := info];
      a.mapAddr := a.mapAddr[info.svc.ip := a.nIdCount];
      a.vvTried := a.vvTried[k := a.vvTried[k] + [a.nIdCount]];
      a.nIdCount := a.nIdCount + 1;
    }
  }

  /** The loop over the tried entries; one whose bucket is full is lost. */
  method LoadTried(a: CAddrMan, f: AddrDat) returns (nLost: nat)
    requires DistinctAddresses(f) && Reading(a, f, 0)
    modifies a`mapInfo, a`mapAddr, a`vRandom, a`vvTried, a`nIdCount
    ensures Reading(a, f, |f.triedInfos|)
    ensures |f.triedInfos| - nLost == |KeptOf(a.hasher, f.triedInfos, |f.triedInfos|)|
  {
    hide Reading, DistinctAddresses, KeptOf;
    nLost := 0;
    LoadedCount(a, f, 0);
    for n := 0 to |f.triedInfos|
      invariant Reading(a, f, n)
      invariant |f.newInfos| + n == a.nIdCount + nLost
    {
      var lost := LoadOneTried(a, f, n);
      if lost { nLost := nLost + 1; }
    }
    LoadedCount(a, f, |f.triedInfos|);
  }

  // ---- filling the new buckets ----

  /** The buckets that list an entry. */
  ghost function ListedIn(f: AddrDat, n: nat): set<nat> {
    set b: nat | b < |f.buckets| && n in f.buckets[b]
  }

  /** Lists within bounds: every new entry is in one to four of them. */
  ghost predicate BucketsWellFormed(f: AddrDat) {
    && |f.buckets| == ADDRMAN_NEW_BUCKET_COUNT
    && (forall b :: 0 <= b < |f.buckets| ==> ListOk(f, b))
    && forall n :: 0 <= n < |f.newInfos| ==> 1 <= |ListedIn(f, n)| <= ADDRMAN_NEW_BUCKETS_PER_ADDRESS
  }

  ghost predicate ListOk(f: AddrDat, b: nat)
    requires b < |f.buckets|
  {
    && NoDuplicates(f.buckets[b]) && |f.buckets[b]| <= ADDRMAN_NEW_BUCKET_SIZE
    && forall n :: n in f.buckets[b] ==> n < |f.newInfos|
  }

  /** The first b lists are in, and p numbers of the next. */
  ghost predicate Filled(f: AddrDat, vvNew: seq<set<nat>>, b: nat, p: nat) {
    && |vvNew| == |f.buckets|
    && forall c :: 0 <= c < |vvNew| ==>
         vvNew[c] == if c < b then Members(f.buckets[c])
                     else if c == b && p <= |f.buckets[c]| then Members(f.buckets[c][..p]) else {}
  }

  /** Every entry counts the buckets it is in. */
  ghost predicate RefsCounted(m0: InfoMap, m: InfoMap, vvNew: seq<set<nat>>) {
    && m.Keys == m0.Keys
    && forall id :: id in m ==> m[id] == m0[id].(nRefCount := |BucketsOf(vvNew, id)|)
  }

  lemma FillNext(f: AddrDat, vvNew: seq<set<nat>>, b: nat, p: nat)
    requires BucketsWellFormed(f) && b < |f.buckets| && p < |f.buckets[b]| && Filled(f, vvNew, b, p)
    ensures |vvNew| == |f.buckets|
    ensures var n := f.buckets[b][p];
      && n < |f.newInfos| && n !in vvNew[b] && BucketsOf(vvNew, n) + {b} <= ListedIn(f, n)
      && Filled(f, vvNew[b := vvNew[b] + {n}], b, p + 1)
  {
    var n := f.buckets[b][p];
    assert ListOk(f, b) && n in f.buckets[b];
    assert f.buckets[b][..p + 1] == f.buckets[b][..p] + [n];
    assert Members(f.buckets[b][..p + 1]) == Members(f.buckets[b][..p]) + {n};
  }

  lemma RefNext(f: AddrDat, m0: InfoMap, m: InfoMap, vvNew: seq<set<nat>>, b: nat, p: nat)
    requires BucketsWellFormed(f) && b < |f.buckets| && p < |f.buckets[b]|
    requires Filled(f, vvNew, b, p) && RefsCounted(m0, m, vvNew)
    requires forall n :: 0 <= n < |f.newInfos| ==> n in m0
    ensures var n := f.buckets[b][p];
      && |vvNew| == |f.buckets| && n in m && m[n].nRefCount < ADDRMAN_NEW_BUCKETS_PER_ADDRESS
      && Filled(f, vvNew[b := vvNew[b] + {n}], b, p + 1)
      && RefsCounted(m0, m[n := m[n].(nRefCount := m[n].nRefCount + 1)], vvNew[b := vvNew[b] + {n}])
  {
    hide Filled, ListedIn, ListOk;
    var n := f.buckets[b][p];
    FillNext(f, vvNew, b, p);
    var v' := vvNew[b := vvNew[b] + {n}];
    assert n in m0.Keys && b !in BucketsOf(vvNew, n);
    SubsetSize(BucketsOf(vvNew, n) + {b}, ListedIn(f, n));
    forall id | id in m ensures |BucketsOf(v', id)| == |BucketsOf(vvNew, id)| + (if id == n then 1 else 0) {
      BucketsAfterInsert(vvNew, b, n, id);
    }
  }

  /** One number of a list. */
  method LoadOneRef(a: CAddrMan, f: AddrDat, b: nat, p: nat, ghost m0: InfoMap)
    requires BucketsWellFormed(f) && b < |f.buckets| && p < |f.buckets[b]|
    requires Filled(f, a.vvNew, b, p) && RefsCounted(m0, a.mapInfo, a.vvNew)
    requires forall n :: 0 <= n < |f.newInfos| ==> n in m0
    modifies a`mapInfo, a`vvNew
    ensures Filled(f, a.vvNew, b, p + 1) && RefsCounted(m0, a.mapInfo, a.vvNew)
  {
    hide RefsCounted, BucketsWellFormed, Filled;
    RefNext(f, m0, a.mapInfo, a.vvNew, b, p);
    var nIndex := f.buckets[b][p];
    if a.mapInfo[nIndex].nRefCount < ADDRMAN_NEW_BUCKETS_PER_ADDRESS {
      a.mapInfo := a.mapInfo[nIndex := a.mapInfo[nIndex].(nRefCount := a.mapInfo[nIndex].nRefCount + 1)];
      a.vvNew := a.vvNew[b := a.vvNew[b] + {nIndex}];
    }
  }

  lemma FilledList(f: AddrDat, vvNew: seq<set<nat>>, b: nat)
    requires b < |f.buckets| && Filled(f, vvNew, b, |f.buckets[b]|)
    ensures Filled(f, vvNew, b + 1, 0)
  {
    assert f.buckets[b][..|f.buckets[b]|] == f.buckets[b];
    if b + 1 < |f.buckets| { assert Members(f.buckets[b + 1][..0]) == {}; }
  }

  /** The last loop: one list. */
  method LoadBucket(a: CAddrMan, f: AddrDat, b: nat, ghost m0: InfoMap)
    requires BucketsWellFormed(f) && b < |f.buckets|
    requires Filled(f, a.vvNew, b, 0) && RefsCounted(m0, a.mapInfo, a.vvNew)
    requires forall n :: 0 <= n < |f.newInfos| ==> n in m0
    modifies a`mapInfo, a`vvNew
    ensures Filled(f, a.vvNew, b + 1, 0) && RefsCounted(m0, a.mapInfo, a.vvNew)
  {
    hide RefsCounted, BucketsWellFormed, Filled;
    for p := 0 to |f.buckets[b]|
      invariant Filled(f, a.vvNew, b, p) && RefsCounted(m0, a.mapInfo, a.vvNew)
    {
      LoadOneRef(a, f, b, p, m0);
    }
    FilledList(f, a.vvNew, b);
  }

  method LoadBuckets(a: CAddrMan, f: AddrDat, ghost m0: InfoMap)
    requires BucketsWellFormed(f)
    requires Filled(f, a.vvNew, 0, 0) && RefsCounted(m0, a.mapInfo, a.vvNew)
    requires forall n :: 0 <= n < |f.newInfos| ==> n in m0
    modifies a`mapInfo, a`vvNew
    ensures Filled(f, a.vvNew, |f.buckets|, 0) && RefsCounted(m0, a.mapInfo, a.vvNew)
  {
    hide Filled, RefsCounted, BucketsWellFormed;
    for b := 0 to |f.buckets|
      invariant Filled(f, a.vvNew, b, 0) && RefsCounted(m0, a.mapInfo, a.vvNew)
    {
      LoadBucket(a, f, b, m0);
    }
  }

  // ---- the loaded tables ----

  /** What a file with distinct addresses and lists within bounds turns into. */
  ghost predicate Loaded(h: Hasher, f: AddrDat, m: InfoMap, vvNew: seq<set<nat>>) {
    var kept := KeptOf(h, f.triedInfos, |f.triedInfos|);
    && Upto(m, |f.newInfos| + |kept|)
    && (forall n :: 0 <= n < |f.newInfos| ==>
          m[n] == Restore(f.newInfos[n]).(nRandomPos := n, nRefCount := |ListedIn(f, n)|))
    && TriedRead(f.triedInfos, kept, |f.newInfos|, m)
    && |vvNew| == |f.buckets|
    && forall b :: 0 <= b < |vvNew| ==> vvNew[b] == Members(f.buckets[b])
  }

  lemma FilledBuckets(f: AddrDat, vvNew: seq<set<nat>>)
    requires BucketsWellFormed(f) && Filled(f, vvNew, |f.buckets|, 0)
    ensures forall n :: BucketsOf(vvNew, n) == ListedIn(f, n)
    ensures forall b :: 0 <= b < |vvNew| ==> vvNew[b] == Members(f.buckets[b]) && |vvNew[b]| == |f.buckets[b]|
    ensures forall n: nat :: n >= |f.newInfos| ==> ListedIn(f, n) == {}
  {
    forall b | 0 <= b < |vvNew| ensures |vvNew[b]| == |f.buckets[b]| {
      assert ListOk(f, b);
      DistinctLength(f.buckets[b]);
    }
    forall n: nat | n >= |f.newInfos| ensures ListedIn(f, n) == {} {
      forall b: nat | b < |f.buckets| ensures n !in f.buckets[b] { assert ListOk(f, b); }
    }
  }

  /** The entries after the last loop: as read, with their counts. */
  lemma LoadedEntries(h: Hasher, f: AddrDat, m0: InfoMap, nIdCount: nat, m: InfoMap, vvNew: seq<set<nat>>,
                      vvTried: seq<seq<nat>>)
    requires TriedLoaded(h, f, |f.triedInfos|, m0, nIdCount, vvTried)
    requires BucketsWellFormed(f) && Filled(f, vvNew, |f.buckets|, 0) && RefsCounted(m0, m, vvNew)
    ensures Loaded(h, f, m, vvNew)
  {
    hide KeptOf, Occupancy, TriedOk, BucketsWellFormed;
    FilledBuckets(f, vvNew);
    var base, kept := |f.newInfos|, KeptOf(h, f.triedInfos, |f.triedInfos|);
    assert Upto(m, base + |kept|) by { assert m.Keys == m0.Keys; }
    forall i | 0 <= i < base + |kept| ensures m[i] == m0[i].(nRefCount := |ListedIn(f, i)|) {
      assert i in m;
    }
    forall i | base <= i < base + |kept| ensures m[i] == m0[i] {
      assert m[i] == m0[i].(nRefCount := 0);
    }
  }

  lemma LoadedRefs(h: Hasher, f: AddrDat, m: InfoMap, vvNew: seq<set<nat>>)
    requires BucketsWellFormed(f) && Loaded(h, f, m, vvNew)
    ensures NewOk(m, vvNew, -1, -1)
  {
    hide KeptOf;
    var base := |f.newInfos|;
    forall id ensures BucketsOf(vvNew, id) == ListedIn(f, id) {}
    forall b, id | 0 <= b < |vvNew| && id in vvNew[b] ensures id in m && id < base { assert ListOk(f, b); }
    forall id | id in m ensures RefOk(m, vvNew, id, -1, -1) {
      if id >= base { assert BucketsOf(vvNew, id) == {}; }
    }
  }

  lemma LoadedCounts(h: Hasher, f: AddrDat, m: InfoMap, vvNew: seq<set<nat>>)
    requires Loaded(h, f, m, vvNew)
    ensures CountsOk(m, |f.newInfos|, |KeptOf(h, f.triedInfos, |f.triedInfos|)|, -1)
  {
    var base, kept := |f.newInfos|, KeptOf(h, f.triedInfos, |f.triedInfos|);
    hide KeptOf;
    assert Settled(m, -1) == Range(0, base);
    assert TriedIds(m) == Range(base, base + |kept|);
  }

  ghost function Range(lo: nat, hi: nat): (r: set<nat>)
    requires lo <= hi
    ensures |r| == hi - lo && forall n :: n in r <==> lo <= n < hi
    decreases hi
  {
    if lo == hi then {} else Range(lo, hi - 1) + {hi - 1}
  }

  /** Reference counts do not matter to the tried buckets. */
  lemma TriedIgnores(h: Hasher, m0: InfoMap, m: InfoMap, vvTried: seq<seq<nat>>)
    requires TriedOk(h, m0, vvTried) && m.Keys == m0.Keys
    requires forall id :: id in m0 ==> m[id] == m0[id].(nRefCount := m[id].nRefCount)
    ensures TriedOk(h, m, vvTried)
  {
    forall id ensures id in m <==> id in m0 { assert id in m.Keys <==> id in m0.Keys; }
  }

  lemma LoadedTables(h: Hasher, f: AddrDat, m0: InfoMap, m: InfoMap, nIdCount: nat,
                     mapAddr: map<NetAddr, nat>, vRandom: seq<nat>, vvNew: seq<set<nat>>, vvTried: seq<seq<nat>>)
    requires RefsCounted(m0, m, vvNew) && IndexesOk(m0, nIdCount, mapAddr, vRandom)
    requires TriedLoaded(h, f, |f.triedInfos|, m0, nIdCount, vvTried)
    ensures IdsOk(m, nIdCount) && AddrOk(m, mapAddr) && RandomOk(m, vRandom) && TriedOk(h, m, vvTried)
  {
    hide BucketsOf, TriedOk;
    forall id | id in m0 ensures id in m && m[id] == m0[id].(nRefCount := m[id].nRefCount) {
      assert id in m0.Keys;
    }
    TriedIgnores(h, m0, m, vvTried);
    IndexesIgnore(m0, m, nIdCount, mapAddr, vRandom);
  }

  method Load(a: CAddrMan, f: AddrDat)
    requires DistinctAddresses(f) && BucketsWellFormed(f)
    modifies a
    ensures a.Valid() && Loaded(a.hasher, f, a.mapInfo, a.vvNew)
    ensures a.nNew == |f.newInfos| && a.nTried == |KeptOf(a.hasher, f.triedInfos, |f.triedInfos|)|
  {
    hide BucketsWellFormed, DistinctAddresses, IndexesOk, Loaded, RefsCounted, Filled, KeptOf, TriedOk, NewRead,
      TriedLoaded, CapsOk, NewOk, CountsOk, AddrOk, RandomOk, IdsOk;
    a.nNew, a.nTried := |f.newInfos|, |f.triedInfos|;
    a.nIdCount, a.mapInfo, a.mapAddr, a.vRandom := 0, map[], map[], [];
    a.vvTried := seq(ADDRMAN_TRIED_BUCKET_COUNT, _ => []);
    a.vvNew := seq(ADDRMAN_NEW_BUCKET_COUNT, _ => {});
    LoadNew(a, f);
    a.nIdCount := a.nNew;
    EmptyTables(a.hasher, f, a.mapInfo, a.mapAddr, a.vRandom, a.vvTried);
    var nLost := LoadTried(a, f);
    a.nTried := a.nTried - nLost;
    ghost var m0 := a.mapInfo;
    EmptyBuckets(a.hasher, f, m0, a.nIdCount, a.vvTried, a.vvNew);
    LoadBuckets(a, f, m0);
    LoadedEntries(a.hasher, f, m0, a.nIdCount, a.mapInfo, a.vvNew, a.vvTried);
    LoadedRefs(a.hasher, f, a.mapInfo, a.vvNew);
    LoadedCounts(a.hasher, f, a.mapInfo, a.vvNew);
    LoadedTables(a.hasher, f, m0, a.mapInfo, a.nIdCount, a.mapAddr, a.vRandom, a.vvNew, a.vvTried);
    LoadedCaps(a.hasher, f, m0, a.nIdCount, a.vvNew, a.vvTried);
  }

  lemma EmptyTables(h: Hasher, f: AddrDat, m: InfoMap, mapAddr: map<NetAddr, nat>, vRandom: seq<nat>,
                    vvTried: seq<seq<nat>>)
    requires IndexesOk(m, |f.newInfos|, mapAddr, vRandom) && NewRead(f.newInfos, |f.newInfos|, m)
    requires |vvTried| == ADDRMAN_TRIED_BUCKET_COUNT && forall k :: 0 <= k < |vvTried| ==> vvTried[k] == []
    ensures TriedLoaded(h, f, 0, m, |f.newInfos|, vvTried)
  {
    hide IdsOk, AddrOk, RandomOk;
  }

  lemma EmptyBuckets(h: Hasher, f: AddrDat, m: InfoMap, nIdCount: nat, vvTried: seq<seq<nat>>, vvNew: seq<set<nat>>)
    requires TriedLoaded(h, f, |f.triedInfos|, m, nIdCount, vvTried)
    requires BucketsWellFormed(f)
    requires |vvNew| == ADDRMAN_NEW_BUCKET_COUNT && forall b :: 0 <= b < |vvNew| ==> vvNew[b] == {}
    ensures Filled(f, vvNew, 0, 0) && RefsCounted(m, m, vvNew)
    ensures forall n :: 0 <= n < |f.newInfos| ==> n in m
  {
    hide KeptOf, Occupancy, TriedOk;
    var base, kept := |f.newInfos|, KeptOf(h, f.triedInfos, |f.triedInfos|);
    forall id | id in m ensures m[id].nRefCount == |BucketsOf(vvNew, id)| {
      assert BucketsOf(vvNew, id) == {};
      assert m[id].nRefCount == 0;
    }
  }

  lemma LoadedCaps(h: Hasher, f: AddrDat, m: InfoMap, nIdCount: nat, vvNew: seq<set<nat>>, vvTried: seq<seq<nat>>)
    requires BucketsWellFormed(f) && Filled(f, vvNew, |f.buckets|, 0)
    requires TriedLoaded(h, f, |f.triedInfos|, m, nIdCount, vvTried)
    ensures CapsOk(vvNew, vvTried)
  {
    hide KeptOf, TriedOk, NewRead, TriedRead;
    FilledBuckets(f, vvNew);
    forall b | 0 <= b < |vvNew| ensures |vvNew[b]| <= ADDRMAN_NEW_BUCKET_SIZE { assert ListOk(f, b); }
  }

  // ---- there and back ----

  lemma WrittenLists(m: InfoMap, vvNew: seq<set<nat>>, news: seq<nat>, trieds: seq<nat>, f: AddrDat)
    requires Written(m, vvNew, news, trieds, f) && NewOk(m, vvNew, -1, -1)
    requires forall b :: 0 <= b < |vvNew| ==> |vvNew[b]| <= ADDRMAN_NEW_BUCKET_SIZE
    ensures BucketsWellFormed(f)
    ensures forall n :: 0 <= n < |news| ==> ListedIn(f, n) == BucketsOf(vvNew, news[n])
  {
    forall n | 0 <= n < |news| ensures ListedIn(f, n) == BucketsOf(vvNew, news[n]) {
      forall b: nat | b < |vvNew| ensures n in f.buckets[b] <==> news[n] in vvNew[b] {
        assert Numbers(news, vvNew[b], f.buckets[b]);
      }
    }
    forall b | 0 <= b < |f.buckets| ensures ListOk(f, b) {
      assert Numbers(news, vvNew[b], f.buckets[b]);
      ListFits(news, vvNew[b], f.buckets[b]);
    }
    forall n | 0 <= n < |f.newInfos| ensures 1 <= |ListedIn(f, n)| <= ADDRMAN_NEW_BUCKETS_PER_ADDRESS {
      assert news[n] in Members(news) && RefOk(m, vvNew, news[n], -1, -1);
    }
  }

  /** A list of distinct numbers is no longer than the bucket it stands for. */
  lemma ListFits(news: seq<nat>, vNew: set<nat>, list: seq<nat>)
    requires Numbers(news, vNew, list) && NoDuplicates(news)
    ensures |list| <= |vNew|
  {
    var ids := seq(|list|, i requires 0 <= i < |list| => (assert list[i] in list; news[list[i]]));
    forall i, j | 0 <= i < j < |ids| ensures ids[i] != ids[j] {
      assert list[i] in list && list[j] in list && list[i] != list[j];
    }
    forall x | x in ids ensures x in vNew {
      var i :| 0 <= i < |ids| && ids[i] == x;
      assert list[i] in list;
    }
    DistinctLength(ids);
    SubsetSize(Members(ids), vNew);
  }

  lemma WrittenAddresses(m: InfoMap, mapAddr: map<NetAddr, nat>, vvNew: seq<set<nat>>, news: seq<nat>,
                         trieds: seq<nat>, f: AddrDat)
    requires Written(m, vvNew, news, trieds, f) && AddrOk(m, mapAddr)
    ensures DistinctAddresses(f)
  {
    var order := news + trieds;
    forall i | 0 <= i < |order| ensures order[i] in m && IpAt(f, i) == m[order[i]].svc.ip {}
    OrderDistinct(m, news, trieds);
    forall i, j | 0 <= i < j < |order| ensures IpAt(f, i) != IpAt(f, j) {
      assert order[i] != order[j];
    }
  }

  lemma OrderDistinct(m: InfoMap, news: seq<nat>, trieds: seq<nat>)
    requires OrderOf(m, news, trieds)
    ensures NoDuplicates(news + trieds) && Members(news + trieds) == m.Keys
  {
    var order := news + trieds;
    forall i | 0 <= i < |news| ensures order[i] in m && !m[order[i]].fInTried {
      assert news[i] in Members(news);
    }
    forall i | |news| <= i < |order| ensures order[i] in m && m[order[i]].fInTried {
      assert trieds[i - |news|] in Members(trieds);
    }
    forall id | id in m.Keys ensures id in order {
      if m[id].fInTried { assert id in Members(trieds); } else { assert id in Members(news); }
    }
  }

  /** The first n tried ids of one bucket. */
  ghost function Sharing(h: Hasher, m: InfoMap, trieds: seq<nat>, n: nat, k: nat): (s: set<nat>)
    requires n <= |trieds| && forall j :: 0 <= j < |trieds| ==> trieds[j] in m
    ensures forall id :: id in s <==> id in trieds[..n] && h.TriedBucket(m[id].svc) == k
  {
    set id | id in trieds[..n] && h.TriedBucket(m[id].svc) == k
  }

  /** Nothing is lost: every bucket has room for what it held before. */
  lemma {:induction false} AllKept(h: Hasher, m: InfoMap, trieds: seq<nat>, infos: seq<Persisted>,
                                   vvTried: seq<seq<nat>>, n: nat)
    requires Infos(m, trieds, infos) && NoDuplicates(trieds) && Members(trieds) == TriedIds(m)
    requires TriedOk(h, m, vvTried) && forall k :: 0 <= k < |vvTried| ==> |vvTried[k]| <= ADDRMAN_TRIED_BUCKET_SIZE
    requires n <= |trieds|
    ensures var kept := KeptOf(h, infos, n); |kept| == n && forall j :: 0 <= j < n ==> kept[j] == j
    ensures forall k: nat :: Occupancy(h, infos, KeptOf(h, infos, n), k) == |Sharing(h, m, trieds, n, k)|
  {
    hide TriedOk, NoDuplicates, Sharing, Occupancy, Members, TriedIds;
    NoneShared(h, m, trieds, infos);
    if n > 0 {
      AllKept(h, m, trieds, infos, vvTried, n - 1);
      var kept, own := KeptOf(h, infos, n - 1), h.TriedBucket(infos[n - 1].svc);
      SharingNext(h, m, trieds, n);
      RoomFor(h, m, trieds, vvTried, n, own);
      OccupancyNext(h, infos, kept, n - 1);
    }
  }

  lemma NoneShared(h: Hasher, m: InfoMap, trieds: seq<nat>, infos: seq<Persisted>)
    requires forall j :: 0 <= j < |trieds| ==> trieds[j] in m
    ensures forall k: nat :: Occupancy(h, infos, [], k) == |Sharing(h, m, trieds, 0, k)|
  {
  }

  lemma SharingNext(h: Hasher, m: InfoMap, trieds: seq<nat>, n: nat)
    requires 0 < n <= |trieds| && NoDuplicates(trieds) && forall j :: 0 <= j < |trieds| ==> trieds[j] in m
    ensures forall k: nat ::
      |Sharing(h, m, trieds, n, k)| ==
      |Sharing(h, m, trieds, n - 1, k)| + (if k == h.TriedBucket(m[trieds[n - 1]].svc) then 1 else 0)
  {
    var id := trieds[n - 1];
    var own := h.TriedBucket(m[id].svc);
    assert trieds[..n] == trieds[..n - 1] + [id];
    forall k: nat ensures |Sharing(h, m, trieds, n, k)| == |Sharing(h, m, trieds, n - 1, k)| + if k == own then 1 else 0 {
      assert Sharing(h, m, trieds, n, k) == Sharing(h, m, trieds, n - 1, k) + (if k == own then {id} else {});
    }
  }

  lemma RoomFor(h: Hasher, m: InfoMap, trieds: seq<nat>, vvTried: seq<seq<nat>>, n: nat, k: nat)
    requires n <= |trieds| && Members(trieds) == TriedIds(m) && k < ADDRMAN_TRIED_BUCKET_COUNT
    requires forall j :: 0 <= j < |trieds| ==> trieds[j] in m
    requires TriedOk(h, m, vvTried) && forall j :: 0 <= j < |vvTried| ==> |vvTried[j]| <= ADDRMAN_TRIED_BUCKET_SIZE
    ensures |Sharing(h, m, trieds, n, k)| <= ADDRMAN_TRIED_BUCKET_SIZE
  {
    var s := Sharing(h, m, trieds, n, k);
    forall id | id in s ensures id in vvTried[k] {
      assert id in trieds && id in Members(trieds);
    }
    SeenAtMost(vvTried[k]);
    SubsetSize(s, Members(vvTried[k]));
  }

  /** The same tables under other ids: order[n] is the old id of n. */
  ghost predicate Renamed(order: seq<nat>, m: InfoMap, vvNew: seq<set<nat>>, vvTried: seq<seq<nat>>,
                          m': InfoMap, vvNew': seq<set<nat>>, vvTried': seq<seq<nat>>) {
    && NoDuplicates(order) && Members(order) == m.Keys && Upto(m', |order|)
    && (forall n :: 0 <= n < |order| ==>
          && Persist(m'[n]) == Persist(m[order[n]]) && m'[n].fInTried == m[order[n]].fInTried
          && m'[n].nRefCount == m[order[n]].nRefCount)
    && |vvNew'| == |vvNew| && |vvTried'| == |vvTried|
    && (forall b, n :: 0 <= b < |vvNew| && 0 <= n < |order| ==> (n in vvNew'[b] <==> order[n] in vvNew[b]))
    && (forall k, n :: 0 <= k < |vvTried| && 0 <= n < |order| ==> (n in vvTried'[k] <==> order[n] in vvTried[k]))
  }

  /** Field by field: address, services, time, source, last success, attempts, kind and references stay. */
  lemma RenamedFields(order: seq<nat>, m: InfoMap, vvNew: seq<set<nat>>, vvTried: seq<seq<nat>>,
                      m': InfoMap, vvNew': seq<set<nat>>, vvTried': seq<seq<nat>>, n: nat)
    requires Renamed(order, m, vvNew, vvTried, m', vvNew', vvTried') && n < |order|
    ensures n in m' && order[n] in m
    ensures var now, was := m'[n], m[order[n]];
      now == was.(nLastTry := now.nLastTry, nRandomPos := now.nRandomPos)
  {
    assert order[n] in Members(order);
  }

  lemma LoadedRenamed(h: Hasher, m: InfoMap, vvNew: seq<set<nat>>, vvTried: seq<seq<nat>>, news: seq<nat>,
                      trieds: seq<nat>, f: AddrDat, m': InfoMap, vvNew': seq<set<nat>>, vvTried': seq<seq<nat>>)
    requires Written(m, vvNew, news, trieds, f) && NewOk(m, vvNew, -1, -1) && TriedOk(h, m, vvTried)
    requires CapsOk(vvNew, vvTried)
    requires Loaded(h, f, m', vvNew') && TriedOk(h, m', vvTried')
    ensures Renamed(news + trieds, m, vvNew, vvTried, m', vvNew', vvTried')
    ensures |KeptOf(h, f.triedInfos, |f.triedInfos|)| == |f.triedInfos|
  {
    var order := news + trieds;
    OrderDistinct(m, news, trieds);
    WrittenLists(m, vvNew, news, trieds, f);
    AllKept(h, m, trieds, f.triedInfos, vvTried, |trieds|);
    SameEntries(h, m, vvNew, news, trieds, f, m', vvNew');
    forall b, n | 0 <= b < |vvNew| && 0 <= n < |order| ensures n in vvNew'[b] <==> order[n] in vvNew[b] {
      SameBuckets(m, vvNew, news, trieds, f, b, n);
    }
    forall k, n | 0 <= k < |vvTried| && 0 <= n < |order| ensures n in vvTried'[k] <==> order[n] in vvTried[k] {
      assert m'[n].svc == Persist(m'[n]).svc == m[order[n]].svc;
    }
  }

  lemma SameBuckets(m: InfoMap, vvNew: seq<set<nat>>, news: seq<nat>, trieds: seq<nat>, f: AddrDat, b: nat, n: nat)
    requires Written(m, vvNew, news, trieds, f) && NewOk(m, vvNew, -1, -1) && b < |vvNew| && n < |news| + |trieds|
    ensures n in Members(f.buckets[b]) <==> (news + trieds)[n] in vvNew[b]
  {
    assert Numbers(news, vvNew[b], f.buckets[b]);
    if n >= |news| {
      assert trieds[n - |news|] in Members(trieds);
      RefCounts(m, vvNew);
      assert trieds[n - |news|] !in NewIds(m);
    }
  }

  lemma SameEntries(h: Hasher, m: InfoMap, vvNew: seq<set<nat>>, news: seq<nat>, trieds: seq<nat>, f: AddrDat,
                    m': InfoMap, vvNew': seq<set<nat>>)
    requires Written(m, vvNew, news, trieds, f) && NewOk(m, vvNew, -1, -1) && Loaded(h, f, m', vvNew')
    requires forall n :: 0 <= n < |news| ==> ListedIn(f, n) == BucketsOf(vvNew, news[n])
    requires var kept := KeptOf(h, f.triedInfos, |trieds|);
      |kept| == |trieds| && forall j :: 0 <= j < |kept| ==> kept[j] == j
    ensures Upto(m', |news + trieds|)
    ensures forall n :: 0 <= n < |news + trieds| ==> var id := (news + trieds)[n];
      && id in m && Persist(m'[n]) == Persist(m[id]) && m'[n].fInTried == m[id].fInTried
      && m'[n].nRefCount == m[id].nRefCount
  {
    hide KeptOf;
    forall n | 0 <= n < |news + trieds| ensures var id := (news + trieds)[n];
      && id in m && Persist(m'[n]) == Persist(m[id]) && m'[n].fInTried == m[id].fInTried
      && m'[n].nRefCount == m[id].nRefCount
    {
      if n < |news| {
        assert news[n] in Members(news) && RefOk(m, vvNew, news[n], -1, -1);
      } else {
        assert trieds[n - |news|] in Members(trieds) && RefOk(m, vvNew, trieds[n - |news|], -1, -1);
      }
    }
  }

  /** Saving and loading with the same key gives the same manager up to the ids, with nothing lost. */
  method SaveAndLoad(a: CAddrMan, c: CAddrMan) returns (ghost order: seq<nat>)
    requires a.Valid() && a != c && c.hasher == a.hasher
    modifies c
    ensures c.Valid()
    ensures Renamed(order, a.mapInfo, a.vvNew, a.vvTried, c.mapInfo, c.vvNew, c.vvTried)
    ensures c.nNew == a.nNew && c.nTried == a.nTried
    ensures TimesOk(a.mapInfo) ==> TimesOk(c.mapInfo)
  {
    hide IdsOk, AddrOk, RandomOk, NewOk, CountsOk, Written, Loaded, Renamed, BucketsWellFormed, DistinctAddresses,
      TimesOk, KeptOf;
    var f, news, trieds := Save(a);
    assert forall b :: 0 <= b < |a.vvNew| ==> |a.vvNew[b]| <= ADDRMAN_NEW_BUCKET_SIZE;
    hide CapsOk, TriedOk;
    WrittenLists(a.mapInfo, a.vvNew, news, trieds, f);
    WrittenAddresses(a.mapInfo, a.mapAddr, a.vvNew, news, trieds, f);
    Load(c, f);
    LoadedRenamed(a.hasher, a.mapInfo, a.vvNew, a.vvTried, news, trieds, f, c.mapInfo, c.vvNew, c.vvTried);
    LoadedTries(c.hasher, f, c.mapInfo, c.vvNew);
    order := news + trieds;
    RenamedTimes(order, a.mapInfo, a.vvNew, a.vvTried, c.mapInfo, c.vvNew, c.vvTried);
  }

  lemma LoadedTries(h: Hasher, f: AddrDat, m: InfoMap, vvNew: seq<set<nat>>)
    requires Loaded(h, f, m, vvNew)
    ensures forall n :: n in m ==> m[n].nLastTry == 0
  {
    hide KeptOf;
  }

  lemma RenamedTimes(order: seq<nat>, m: InfoMap, vvNew: seq<set<nat>>, vvTried: seq<seq<nat>>,
                     m': InfoMap, vvNew': seq<set<nat>>, vvTried': seq<seq<nat>>)
    requires Renamed(order, m, vvNew, vvTried, m', vvNew', vvTried')
    requires forall n :: n in m' ==> m'[n].nLastTry == 0
    ensures TimesOk(m) ==> TimesOk(m')
  {
    forall n | n in m' ensures order[n] in m && m'[n].nLastSuccess == m[order[n]].nLastSuccess {
      assert order[n] in Members(order);
      assert Persist(m'[n]).nLastSuccess == Persist(m[order[n]]).nLastSuccess;
    }
  }
}
