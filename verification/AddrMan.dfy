/** The address manager: five redundant indexes that every operation keeps in step (src/addrman.cpp). */
module AddrMan {
  import opened Arith
  import opened AddrInfo
  import opened AddrTables

  method GetRandInt(nMax: nat) returns (r: nat)
    requires nMax > 0
    ensures r < nMax
  {
    assert 0 < nMax;
    r :| r < nMax;
  }

  lemma HasMember(s: set<nat>)
    requires s != {}
    ensures exists x :: x in s
  {
    assert |s| > 0;
  }

  /** The next element of a std::set. */
  method MinOf(s: set<nat>) returns (x: nat)
    requires s != {}
    ensures x in s && forall y :: y in s ==> x <= y
  {
    HasMember(s);
    x :| x in s;
    var rest := s - {x};
    while rest != {}
      invariant x in s && rest <= s
      invariant forall y :: y in s && y !in rest ==> x <= y
      decreases rest
    {
      HasMember(rest);
      var y :| y in rest;
      if y < x { x := y; }
      rest := rest - {y};
    }
  }

  // ---- choosing what to drop from a bucket ----

  /** The least entry of a bucket, by id, that is bad enough to be deleted. */
  ghost predicate LeastTerrible(m: InfoMap, vNew: set<nat>, nNow: int, id: nat)
    requires vNew <= m.Keys
  {
    && id in vNew && m[id].IsTerrible(nNow)
    && forall x :: x in vNew && x < id ==> !m[x].IsTerrible(nNow)
  }

  method FirstTerrible(m: InfoMap, vNew: set<nat>, nNow: int) returns (found: bool, id: nat)
    requires vNew <= m.Keys
    ensures found <==> exists x :: x in vNew && m[x].IsTerrible(nNow)
    ensures found ==> LeastTerrible(m, vNew, nNow, id)
  {
    var rest := vNew;
    while rest != {}
      invariant rest <= vNew
      invariant forall x, y :: x in vNew && x !in rest && y in rest ==> x < y
      invariant forall x :: x in vNew && x !in rest ==> !m[x].IsTerrible(nNow)
      decreases rest
    {
      var it := MinOf(rest);
      if m[it].IsTerrible(nNow) { return true, it; }
      rest := rest - {it};
    }
    return false, 0;
  }

  /** The member of a bucket that stands n-th in ascending order. */
  ghost predicate StandsAt(s: set<nat>, n: nat, x: nat) {
    x in s && |set y: nat | y in s && y < x| == n
  }

  ghost predicate Picked(s: set<nat>, n: seq<nat>, x: nat) {
    exists j :: 0 <= j < |n| && StandsAt(s, n[j], x)
  }

  lemma PickedWhere(s: set<nat>, n: seq<nat>, x: nat, at: nat)
    requires |n| == 4 && StandsAt(s, at, x)
    ensures Picked(s, n, x) <==> at == n[0] || at == n[1] || at == n[2] || at == n[3]
  {
    if at == n[0] { assert StandsAt(s, n[0], x); }
    if at == n[1] { assert StandsAt(s, n[1], x); }
    if at == n[2] { assert StandsAt(s, n[2], x); }
    if at == n[3] { assert StandsAt(s, n[3], x); }
  }

  /** Among the picked members, the one last announced longest ago; the lowest id breaks ties. */
  ghost predicate OldestOf(m: InfoMap, s: set<nat>, n: seq<nat>, x: nat)
    requires s <= m.Keys
  {
    && Picked(s, n, x)
    && forall y :: y in s && Picked(s, n, y) ==> m[x].nTime < m[y].nTime || (m[x].nTime == m[y].nTime && x <= y)
  }

  method OldestPicked(m: InfoMap, vNew: set<nat>, n: seq<nat>) returns (nOldest: int)
    requires vNew <= m.Keys
    requires |n| == 4 && n[0] < |vNew|
    ensures nOldest >= 0 && OldestOf(m, vNew, n, nOldest)
  {
    hide Picked;
    var rest, nI := vNew, 0;
    nOldest := -1;
    while rest != {}
      invariant rest <= vNew && nI == |vNew - rest|
      invariant forall x, y :: x in vNew && x !in rest && y in rest ==> x < y
      invariant nOldest == -1 ==> nI <= n[0] && forall y :: y in vNew && y !in rest ==> !Picked(vNew, n, y)
      invariant nOldest != -1 ==> nOldest in vNew && nOldest !in rest && Picked(vNew, n, nOldest) && forall y ::
        y in vNew && y !in rest && Picked(vNew, n, y) ==>
          m[nOldest].nTime < m[y].nTime || (m[nOldest].nTime == m[y].nTime && nOldest <= y)
      decreases rest
    {
      var it := MinOf(rest);
      assert (set y: nat | y in vNew && y < it) == vNew - rest;
      PickedWhere(vNew, n, it, nI);
      hide StandsAt;
      if nI == n[0] || nI == n[1] || nI == n[2] || nI == n[3] {
        if nOldest == -1 || m[it].nTime < m[nOldest].nTime { nOldest := it; }
      }
      assert vNew - (rest - {it}) == (vNew - rest) + {it};
      rest := rest - {it};
      nI := nI + 1;
    }
  }

  // ---- what an operation may do to entries it is not about ----

  /** The same entry, perhaps at another place of the random order. */
  ghost predicate Kept(i1: Info, i2: Info) {
    i2 == i1.(nRandomPos := i2.nRandomPos)
  }

  /** One reference to id went away, and with the last one the entry. */
  ghost predicate Unreferenced(m: InfoMap, id: nat, m': InfoMap)
    requires id in m
  {
    && m'.Keys == m.Keys - (if m[id].nRefCount == 1 then {id} else {})
    && (id in m' ==> m'[id] == m[id].(nRefCount := m[id].nRefCount - 1))
    && (forall k :: k in m' && k != id ==> Kept(m[k], m'[k]))
  }

  /** Which entry a full bucket gives up: the least terrible one by id, or if none is terrible the oldest of four
      random ones. */
  ghost predicate ToDrop(m: InfoMap, vNew: set<nat>, nNow: int, n: seq<nat>, x: nat) {
    && vNew <= m.Keys && x in vNew
    && if exists y :: y in vNew && m[y].IsTerrible(nNow) then LeastTerrible(m, vNew, nNow, x)
       else |n| == 4 && (forall j :: 0 <= j < 4 ==> n[j] < |vNew|) && OldestOf(m, vNew, n, x)
  }

  /** An entry that is given up: if some entry of the bucket is terrible, it is, and none with a lower id is; otherwise
      none that stands at one of the four drawn places was announced longer ago, and it stands at one itself. */
  lemma DroppedIs(m: InfoMap, vNew: set<nat>, nNow: int, n: seq<nat>, x: nat)
    requires ToDrop(m, vNew, nNow, n, x)
    ensures vNew <= m.Keys && x in vNew
    ensures (exists y :: y in vNew && m[y].IsTerrible(nNow)) ==>
      m[x].IsTerrible(nNow) && forall y :: y in vNew && m[y].IsTerrible(nNow) ==> x <= y
    ensures !(exists y :: y in vNew && m[y].IsTerrible(nNow)) ==>
      && |n| == 4 && (exists j :: 0 <= j < 4 && StandsAt(vNew, n[j], x))
      && forall j, y :: 0 <= j < 4 && StandsAt(vNew, n[j], y) ==> m[x].nTime <= m[y].nTime
  {
  }

  lemma DropsTerrible(m: InfoMap, vNew: set<nat>, nNow: int, n: seq<nat>, x: nat)
    requires vNew <= m.Keys && LeastTerrible(m, vNew, nNow, x)
    ensures ToDrop(m, vNew, nNow, n, x)
  {
  }

  lemma DropsOldest(m: InfoMap, vNew: set<nat>, nNow: int, n: seq<nat>, x: nat)
    requires vNew <= m.Keys && (forall y :: y in vNew ==> !m[y].IsTerrible(nNow))
    requires |n| == 4 && (forall j :: 0 <= j < 4 ==> n[j] < |vNew|) && OldestOf(m, vNew, n, x)
    ensures x in vNew && ToDrop(m, vNew, nNow, n, x)
  {
    var j :| 0 <= j < |n| && StandsAt(vNew, n[j], x);
  }

  /** A full bucket b gave up that entry. */
  ghost predicate Roomed(m: InfoMap, vvNew: seq<set<nat>>, b: nat, nNow: int, m': InfoMap, vvNew': seq<set<nat>>)
    requires b < |vvNew|
  {
    if |vvNew[b]| != ADDRMAN_NEW_BUCKET_SIZE then m' == m && vvNew' == vvNew
    else exists x, n ::
      && ToDrop(m, vvNew[b], nNow, n, x) && x in m && Unreferenced(m, x, m')
      && vvNew' == vvNew[b := vvNew[b] - {x}]
  }

  /** One more reference for id in bucket b, if it is not there yet; a full bucket makes room first. */
  ghost predicate Filed(m: InfoMap, vvNew: seq<set<nat>>, b: nat, id: nat, nNow: int, m': InfoMap,
                        vvNew': seq<set<nat>>)
    requires id in m && b < |vvNew|
  {
    if id in vvNew[b] then m' == m && vvNew' == vvNew
    else exists v ::
      && |v| == |vvNew|
      && Roomed(m[id := m[id].(nRefCount := m[id].nRefCount + 1)], vvNew, b, nNow, m', v)
      && vvNew' == v[b := v[b] + {id}]
  }

  /** The new buckets without an entry. */
  ghost function Without(vvNew: seq<set<nat>>, id: nat): (w: seq<set<nat>>)
    ensures |w| == |vvNew|
    ensures forall b :: 0 <= b < |w| ==> w[b] == vvNew[b] - {id}
  {
    seq(|vvNew|, b requires 0 <= b < |vvNew| => vvNew[b] - {id})
  }

  lemma WithoutSmaller(vvNew: seq<set<nat>>, vvTried: seq<seq<nat>>, id: nat, b: nat)
    requires CapsOk(vvNew, vvTried) && b < |vvNew| && id in vvNew[b]
    ensures CapsOk(Without(vvNew, id), vvTried) && |Without(vvNew, id)[b]| < ADDRMAN_NEW_BUCKET_SIZE
  {
    forall c | 0 <= c < |vvNew| ensures |Without(vvNew, id)[c]| <= |vvNew[c]| {
      SubsetSize(vvNew[c] - {id}, vvNew[c]);
    }
  }

  lemma {:induction false} SubsetSize(a: set<nat>, b: set<nat>)
    requires a <= b
    ensures |a| <= |b|
  {
    assert b == a + (b - a);
  }

  /** Where an evicted entry goes: the bucket of its own source, or if that is full one that held id. */
  ghost predicate HomeOf(h: Hasher, m: InfoMap, vvNew: seq<set<nat>>, id: nat, e: nat, b: int)
    requires e in m && |vvNew| == ADDRMAN_NEW_BUCKET_COUNT
  {
    var home := h.NewBucket(m[e].svc, m[e].source);
    && 0 <= b < |vvNew|
    && if |vvNew[home] - {id}| < ADDRMAN_NEW_BUCKET_SIZE then b == home else id in vvNew[b]
  }

  /** The entry that SelectTried finds in a bucket for some picks makes way for id. */
  ghost predicate Evicts(m: InfoMap, s: seq<nat>, picks: seq<nat>, id: nat, e: nat, s': seq<nat>) {
    && PicksOk(s, picks) && s != [] && (forall x :: x in s ==> x in m)
    && |picks| == (if |s| < ADDRMAN_TRIED_ENTRIES_INSPECT_ON_EVICT then |s| else ADDRMAN_TRIED_ENTRIES_INSPECT_ON_EVICT)
    && var r := Inspect(m, s, picks);
       e == r.bucket[r.pos] && s' == r.bucket[r.pos := id]
  }

  /** What the entries hold besides the time of their last success does not matter to it. */
  lemma {:induction false} InspectSame(m1: InfoMap, m2: InfoMap, s: seq<nat>, picks: seq<nat>)
    requires PicksOk(s, picks)
    requires forall x :: x in s ==> x in m1 && x in m2 && m1[x].nLastSuccess == m2[x].nLastSuccess
    ensures Inspect(m1, s, picks) == Inspect(m2, s, picks)
    decreases |picks|
  {
    if picks != [] { InspectSame(m1, m2, s, picks[..|picks| - 1]); }
  }

  lemma EvictsSame(m1: InfoMap, m2: InfoMap, s: seq<nat>, picks: seq<nat>, id: nat, e: nat, s': seq<nat>)
    requires Evicts(m1, s, picks, id, e, s')
    requires forall x :: x in s ==> x in m2 && m1[x].nLastSuccess == m2[x].nLastSuccess
    ensures Evicts(m2, s, picks, id, e, s')
  {
    InspectSame(m1, m2, s, picks);
  }

  /** id trades places with e, a tried entry of the same bucket. */
  ghost predicate Traded(h: Hasher, m: InfoMap, vvNew: seq<set<nat>>, vvTried: seq<seq<nat>>, id: nat, e: nat, b: int,
                         picks: seq<nat>, m': InfoMap, vvNew': seq<set<nat>>, vvTried': seq<seq<nat>>)
    requires id in m && |vvNew| == ADDRMAN_NEW_BUCKET_COUNT && |vvTried| == ADDRMAN_TRIED_BUCKET_COUNT
  {
    var k := h.TriedBucket(m[id].svc);
    && e in vvTried[k] && e in m && e != id && HomeOf(h, m, vvNew, id, e, b)
    && m' == m[e := m[e].(fInTried := false, nRefCount := 1)]
              [id := m[id].(fInTried := true, nRefCount := 0)]
    && vvNew' == Without(vvNew, id)[b := Without(vvNew, id)[b] + {e}]
    && |vvTried'| == |vvTried|
    && (forall j :: 0 <= j < |vvTried| && j != k ==> vvTried'[j] == vvTried[j])
    && Evicts(m, vvTried[k], picks, id, e, vvTried'[k])
    && multiset(vvTried'[k]) == multiset(vvTried[k]) - multiset{e} + multiset{id}
  }

  /** id went from the new buckets to the tried bucket of its service. */
  ghost predicate Promoted(h: Hasher, m: InfoMap, vvNew: seq<set<nat>>, vvTried: seq<seq<nat>>, id: nat,
                           m': InfoMap, vvNew': seq<set<nat>>, vvTried': seq<seq<nat>>)
    requires id in m && |vvNew| == ADDRMAN_NEW_BUCKET_COUNT && |vvTried| == ADDRMAN_TRIED_BUCKET_COUNT
  {
    var k := h.TriedBucket(m[id].svc);
    if |vvTried[k]| < ADDRMAN_TRIED_BUCKET_SIZE then
      && m' == m[id := m[id].(fInTried := true, nRefCount := 0)]
      && vvNew' == Without(vvNew, id) && vvTried' == vvTried[k := vvTried[k] + [id]]
    else exists e, b, picks :: Traded(h, m, vvNew, vvTried, id, e, b, picks, m', vvNew', vvTried')
  }

  /** An entry that trades places was tried and stands afterwards, as new with one reference, in the bucket of its own
      address and source if that had room, and otherwise in one the newcomer left; the newcomer has its place. */
  lemma TradedIs(h: Hasher, m: InfoMap, vvNew: seq<set<nat>>, vvTried: seq<seq<nat>>, id: nat, e: nat, b: int,
                 picks: seq<nat>, m': InfoMap, vvNew': seq<set<nat>>, vvTried': seq<seq<nat>>)
    requires id in m && |vvNew| == ADDRMAN_NEW_BUCKET_COUNT && |vvTried| == ADDRMAN_TRIED_BUCKET_COUNT
    requires Traded(h, m, vvNew, vvTried, id, e, b, picks, m', vvNew', vvTried')
    ensures e in m && e in m' && id in m' && !m'[e].fInTried && m'[e].nRefCount == 1
    ensures m'[id].fInTried && m'[id].nRefCount == 0
    ensures var home, k := h.NewBucket(m[e].svc, m[e].source), h.TriedBucket(m[id].svc);
      && 0 <= b < |vvNew'| && e in vvNew'[b]
      && (|vvNew[home] - {id}| < ADDRMAN_NEW_BUCKET_SIZE ==> b == home)
      && (|vvNew[home] - {id}| >= ADDRMAN_NEW_BUCKET_SIZE ==> id in vvNew[b])
      && (forall c :: 0 <= c < |vvNew'| ==> id !in vvNew'[c])
      && PicksOk(vvTried[k], picks) && (forall x :: x in vvTried[k] ==> x in m)
      && var r := Inspect(m, vvTried[k], picks); e == r.bucket[r.pos] && vvTried'[k] == r.bucket[r.pos := id]
  {
  }

  lemma TradeCaps(vvNew: seq<set<nat>>, vvTried: seq<seq<nat>>, vvTried': seq<seq<nat>>, id: nat, e: nat, b: nat, k: nat)
    requires CapsOk(vvNew, vvTried) && CapsOk(Without(vvNew, id), vvTried)
    requires b < |vvNew| && k < |vvTried| == |vvTried'|
    requires |Without(vvNew, id)[b]| < ADDRMAN_NEW_BUCKET_SIZE
    requires forall j :: 0 <= j < |vvTried| && j != k ==> vvTried'[j] == vvTried[j]
    requires e in vvTried[k] && multiset(vvTried'[k]) == multiset(vvTried[k]) - multiset{e} + multiset{id}
    ensures CapsOk(Without(vvNew, id)[b := Without(vvNew, id)[b] + {e}], vvTried')
  {
    assert e in multiset(vvTried[k]);
    assert |multiset(vvTried'[k])| == |multiset(vvTried[k])|;
  }

  lemma PromotedWithRoom(h: Hasher, m: InfoMap, vvNew: seq<set<nat>>, vvTried: seq<seq<nat>>, id: nat)
    requires id in m && |vvNew| == ADDRMAN_NEW_BUCKET_COUNT && |vvTried| == ADDRMAN_TRIED_BUCKET_COUNT
    requires CapsOk(Without(vvNew, id), vvTried)
    requires |vvTried[h.TriedBucket(m[id].svc)]| < ADDRMAN_TRIED_BUCKET_SIZE
    ensures var k := h.TriedBucket(m[id].svc); var t := vvTried[k := vvTried[k] + [id]];
      && CapsOk(Without(vvNew, id), t)
      && Promoted(h, m, vvNew, vvTried, id,
                  m[id := m[id].(nRefCount := 0)][id := m[id].(nRefCount := 0).(fInTried := true)],
                  Without(vvNew, id), t)
  {
    assert m[id := m[id].(nRefCount := 0)][id := m[id].(nRefCount := 0).(fInTried := true)]
        == m[id := m[id].(fInTried := true, nRefCount := 0)];
  }

  lemma PromotedByTrade(h: Hasher, m: InfoMap, vvNew: seq<set<nat>>, vvTried: seq<seq<nat>>, id: nat, nOrigin: nat,
                        e: nat, b: nat, picks: seq<nat>, vvTried': seq<seq<nat>>)
    requires id in m && |vvNew| == ADDRMAN_NEW_BUCKET_COUNT && |vvTried| == ADDRMAN_TRIED_BUCKET_COUNT
    requires CapsOk(vvNew, vvTried) && CapsOk(Without(vvNew, id), vvTried)
    requires nOrigin < |vvNew| && id in vvNew[nOrigin] && |Without(vvNew, id)[nOrigin]| < ADDRMAN_NEW_BUCKET_SIZE
    requires var k := h.TriedBucket(m[id].svc);
      && |vvTried[k]| >= ADDRMAN_TRIED_BUCKET_SIZE
      && e in vvTried[k] && e in m && e != id
      && b == (var home := h.NewBucket(m[e].svc, m[e].source);
               if |Without(vvNew, id)[home]| < ADDRMAN_NEW_BUCKET_SIZE then home else nOrigin)
      && |vvTried'| == |vvTried|
      && (forall j :: 0 <= j < |vvTried| && j != k ==> vvTried'[j] == vvTried[j])
      && Evicts(m, vvTried[k], picks, id, e, vvTried'[k])
      && multiset(vvTried'[k]) == multiset(vvTried[k]) - multiset{e} + multiset{id}
    ensures var v' := Without(vvNew, id)[b := Without(vvNew, id)[b] + {e}];
      && CapsOk(v', vvTried')
      && Promoted(h, m, vvNew, vvTried, id,
                  m[id := m[id].(nRefCount := 0)]
                   [e := m[e].(fInTried := false, nRefCount := 1)]
                   [id := m[id].(nRefCount := 0).(fInTried := true)],
                  v', vvTried')
  {
    TradeCaps(vvNew, vvTried, vvTried', id, e, b, h.TriedBucket(m[id].svc));
    hide CapsOk, Evicts;
    var v' := Without(vvNew, id)[b := Without(vvNew, id)[b] + {e}];
    var m' := m[e := m[e].(fInTried := false, nRefCount := 1)][id := m[id].(fInTried := true, nRefCount := 0)];
    assert m' == m[id := m[id].(nRefCount := 0)][e := m[e].(fInTried := false, nRefCount := 1)]
                  [id := m[id].(nRefCount := 0).(fInTried := true)];
    assert HomeOf(h, m, vvNew, id, e, b);
    assert Traded(h, m, vvNew, vvTried, id, e, b, picks, m', v', vvTried');
  }

  lemma OnlyOne(m: InfoMap, mapAddr: map<NetAddr, nat>, addr: Service)
    requires AddrOk(m, mapAddr)
    ensures (forall id :: id in m ==> m[id].svc != addr) <==>
      !(addr.ip in mapAddr && mapAddr[addr.ip] in m && m[mapAddr[addr.ip]].svc == addr)
  {
    forall id | id in m && m[id].svc == addr ensures addr.ip in mapAddr && mapAddr[addr.ip] == id {
      assert m[id].svc.ip == addr.ip;
    }
    if addr.ip in mapAddr { assert mapAddr[addr.ip] in m; }
  }

  lemma WrapAround(n: nat, r: nat, size: nat)
    requires n < size && r < size
    ensures (n + r) % size == if n + r < size then n + r else n + r - size
  {
  }

  lemma HasBucket(m: InfoMap, vvNew: seq<set<nat>>, id: nat)
    requires NewOk(m, vvNew, -1, -1) && id in m && !m[id].fInTried
    ensures exists b :: 0 <= b < |vvNew| && id in vvNew[b]
  {
    assert RefOk(m, vvNew, id, -1, -1);
    var b :| b in BucketsOf(vvNew, id);
  }

  lemma BucketCounts(h: Hasher, m: InfoMap, vvNew: seq<set<nat>>, vvTried: seq<seq<nat>>)
    requires NewOk(m, vvNew, -1, -1) && TriedOk(h, m, vvTried)
    ensures |vvNew| == ADDRMAN_NEW_BUCKET_COUNT && |vvTried| == ADDRMAN_TRIED_BUCKET_COUNT
  {
  }

  lemma TriedMembers(h: Hasher, m: InfoMap, vvTried: seq<seq<nat>>, k: nat)
    requires TriedOk(h, m, vvTried) && k < |vvTried|
    ensures forall x :: x in vvTried[k] ==> x in m
  {
  }

  lemma NoPicks(m: InfoMap, s: seq<nat>)
    requires forall x :: x in s ==> x in m
    ensures PicksOk(s, []) && Inspect(m, s, []) == Inspection(s, -1, -1)
  {
  }

  lemma TimesAfterSuccess(m: InfoMap, id: nat, nTime: int)
    requires id in m
    ensures TimesOk(m) && nTime > 0 ==>
      TimesOk(m[id := m[id].(nLastSuccess := nTime, nLastTry := nTime, nTime := nTime, nAttempts := 0)])
  {
  }

  lemma TimesAfterPromotion(h: Hasher, m: InfoMap, vvNew: seq<set<nat>>, vvTried: seq<seq<nat>>, id: nat,
                            m': InfoMap, vvNew': seq<set<nat>>, vvTried': seq<seq<nat>>)
    requires id in m && |vvNew| == ADDRMAN_NEW_BUCKET_COUNT && |vvTried| == ADDRMAN_TRIED_BUCKET_COUNT
    requires Promoted(h, m, vvNew, vvTried, id, m', vvNew', vvTried')
    ensures TimesOk(m) && m[id].nLastSuccess != 0 ==> TimesOk(m')
  {
  }

  // ---- announcements ----

  function Max(a: int, b: int): int {
    if a < b then b else a
  }

  /** A new entry. */
  function Announced(addr: Address, source: NetAddr, nTimePenalty: int, nRandomPos: int): Info {
    Info(addr.svc, addr.nServices, Max(0, addr.nTime - nTimePenalty), 0, source, 0, 0, 0, false, nRandomPos)
  }

  /** It starts without attempts and references, announced at the time given less the penalty, if that is not past 0. */
  lemma AnnouncedAs(addr: Address, source: NetAddr, nTimePenalty: int, nRandomPos: int)
    ensures var info := Announced(addr, source, nTimePenalty, nRandomPos);
      && info.svc == addr.svc && info.nServices == addr.nServices && info.source == source
      && info.nLastTry == 0 && info.nLastSuccess == 0 && info.nAttempts == 0 && info.nRefCount == 0 && !info.fInTried
      && (addr.nTime >= nTimePenalty ==> info.nTime + nTimePenalty == addr.nTime)
      && (addr.nTime < nTimePenalty ==> info.nTime == 0)
  {
  }

  /** When an announcement moves the time of a known entry: never if it gives no time, always if none is known, else if
      it is newer, after the penalty, by more than a day, or by more than an hour if it is itself less than a day old. It
      moves to the announced time less the penalty, or 0. */
  lemma RefreshedWhen(info: Info, addr: Address, nTimePenalty: int, nNow: int)
    ensures var r, newer := Refreshed(info, addr, nTimePenalty, nNow), addr.nTime - nTimePenalty - info.nTime;
      && r.(nTime := info.nTime, nServices := info.nServices) == info
      && (addr.nTime == 0 ==> r.nTime == info.nTime)
      && (addr.nTime != 0 ==>
            var moves := info.nTime == 0 || newer > 86_400 || (newer > 3_600 && nNow - addr.nTime < 86_400);
            r.nTime == if !moves then info.nTime else if addr.nTime > nTimePenalty then addr.nTime - nTimePenalty else 0)
  {
  }

  /** What an announcement does to a known entry: the time never moves back, nor past the announced time. */
  function Refreshed(info: Info, addr: Address, nTimePenalty: int, nNow: int): (r: Info)
    ensures r.nServices == info.nServices + addr.nServices
    ensures nTimePenalty >= 0 && info.nTime >= 0 ==> r.nTime >= info.nTime
    ensures nTimePenalty >= 0 && addr.nTime >= 0 && r.nTime != info.nTime ==> r.nTime <= addr.nTime
  {
    var nUpdateInterval := if nNow - addr.nTime < 24 * 60 * 60 then 60 * 60 else 24 * 60 * 60;
    info.(
      nTime := if addr.nTime != 0 && (info.nTime == 0 || info.nTime < addr.nTime - nUpdateInterval - nTimePenalty)
               then Max(0, addr.nTime - nTimePenalty) else info.nTime,
      nServices := info.nServices + addr.nServices)
  }

  /** Whether an announced entry gets a further reference: the announcement is newer than what is known, the entry is
      not tried, it has fewer than four references, and the draw, with odds of one in 2 to their number, allows it. */
  predicate Refiled(info: Info, addr: Address, nRandom: nat) {
    && addr.nTime != 0 && (info.nTime == 0 || addr.nTime > info.nTime)
    && !info.fInTried && 0 <= info.nRefCount != ADDRMAN_NEW_BUCKETS_PER_ADDRESS
    && nRandom % Pow2(info.nRefCount) == 0
  }

  /** By the count of references: an entry new to this announcement gets its second with every second draw, its third
      with every fourth, its fourth with every eighth, and no fifth; old news, and a tried entry, never get one. */
  lemma RefiledWhen(info: Info, addr: Address, nRandom: nat)
    requires 1 <= info.nRefCount <= 4
    ensures Refiled(info, addr, nRandom) <==>
      && addr.nTime != 0 && (info.nTime == 0 || info.nTime < addr.nTime) && !info.fInTried
      && (|| (info.nRefCount == 1 && nRandom % 2 == 0)
          || (info.nRefCount == 2 && nRandom % 4 == 0)
          || (info.nRefCount == 3 && nRandom % 8 == 0))
  {
    assert Pow2(1) == 2 && Pow2(2) == 4 && Pow2(3) == 8;
  }

  lemma NoBucketYet(m: InfoMap, vvNew: seq<set<nat>>, id: nat, b: nat)
    requires NewOk(m, vvNew, -1, id) && id in m && m[id].nRefCount == 0 && b < |vvNew|
    ensures id !in vvNew[b]
  {
    assert RefOk(m, vvNew, id, -1, id);
    assert BucketsOf(vvNew, id) == {};
    assert b !in BucketsOf(vvNew, id);
  }

  lemma CountBounds(m: InfoMap, vvNew: seq<set<nat>>, id: nat)
    requires NewOk(m, vvNew, -1, -1) && id in m && !m[id].fInTried
    ensures 1 <= m[id].nRefCount <= ADDRMAN_NEW_BUCKETS_PER_ADDRESS
  {
    assert RefOk(m, vvNew, id, -1, -1);
  }

  /** Making room for id does not touch id. */
  lemma StillThere(m: InfoMap, vvNew: seq<set<nat>>, b: nat, id: nat, nNow: int, m': InfoMap, vvNew': seq<set<nat>>)
    requires id in m && b < |vvNew| && id !in vvNew[b] && Roomed(m, vvNew, b, nNow, m', vvNew')
    ensures |vvNew'| == |vvNew| && id in m' && m'[id] == m[id].(nRandomPos := m'[id].nRandomPos) && id !in vvNew'[b]
    ensures TimesOk(m) ==> TimesOk(m')
  {
  }

  lemma CapsAfterInsert(m: InfoMap, vvNew: seq<set<nat>>, vvTried: seq<seq<nat>>, b: nat, id: nat, nNow: int,
                        m': InfoMap, vvNew': seq<set<nat>>)
    requires CapsOk(vvNew, vvTried) && b < |vvNew| && id !in vvNew[b] && Roomed(m, vvNew, b, nNow, m', vvNew')
    ensures |vvNew'| == |vvNew| && CapsOk(vvNew'[b := vvNew'[b] + {id}], vvTried)
  {
    hide Unreferenced;
  }

  /** Filing keeps the entry and all times. */
  lemma FiledKeeps(m: InfoMap, vvNew: seq<set<nat>>, b: nat, id: nat, nNow: int, m': InfoMap, vvNew': seq<set<nat>>)
    requires id in m && b < |vvNew| && Filed(m, vvNew, b, id, nNow, m', vvNew')
    ensures id in m' && m'[id].svc == m[id].svc && b < |vvNew'| && id in vvNew'[b]
    ensures TimesOk(m) ==> TimesOk(m')
  {
    if id !in vvNew[b] {
      var m1 := m[id := m[id].(nRefCount := m[id].nRefCount + 1)];
      var v :| |v| == |vvNew| && Roomed(m1, vvNew, b, nNow, m', v) && vvNew' == v[b := v[b] + {id}];
      StillThere(m1, vvNew, b, id, nNow, m', v);
      hide Roomed;
    }
  }

  lemma TimesAfter(m: InfoMap, id: nat, info: Info)
    requires id in m && info.fInTried == m[id].fInTried && info.nLastSuccess == m[id].nLastSuccess
    ensures TimesOk(m) && (info.nLastTry >= 0 || info.nLastTry == m[id].nLastTry) ==> TimesOk(m[id := info])
  {
  }

  lemma TimesAfterNew(m: InfoMap, id: nat, info: Info)
    requires info.nLastTry == 0 && info.nLastSuccess == 0 && !info.fInTried
    ensures TimesOk(m) ==> TimesOk(m[id := info])
  {
  }

  lemma TimesAfterKnown(h: Hasher, m: InfoMap, vvNew: seq<set<nat>>, addr: Address, source: NetAddr, nTimePenalty: int,
                        nNow: int, id: nat, m': InfoMap, vvNew': seq<set<nat>>)
    requires id in m && |vvNew| == ADDRMAN_NEW_BUCKET_COUNT
    requires var info := Refreshed(m[id], addr, nTimePenalty, nNow);
      m' == m[id := info] || Filed(m[id := info], vvNew, h.NewBucket(info.svc, source), id, nNow, m', vvNew')
    ensures id in m' && m'[id].svc == m[id].svc
    ensures TimesOk(m) ==> TimesOk(m')
  {
    var info := Refreshed(m[id], addr, nTimePenalty, nNow);
    TimesAfter(m, id, info);
    hide TimesOk, Filed;
    if m' != m[id := info] {
      FiledKeeps(m[id := info], vvNew, h.NewBucket(info.svc, source), id, nNow, m', vvNew');
    }
  }

  // ---- sending addresses ----

  function AddressOf(info: Info): Address {
    Address(info.svc, info.nServices, info.nTime)
  }

  function NodesToSend(size: nat): (n: nat)
    ensures n <= size && n <= ADDRMAN_GETADDR_MAX
  {
    if size < ADDRMAN_GETADDR_MAX then size
    else if ADDRMAN_GETADDR_MAX_PCT * size / 100 > ADDRMAN_GETADDR_MAX then ADDRMAN_GETADDR_MAX
    else ADDRMAN_GETADDR_MAX_PCT * size / 100
  }

  /** Small tables are sent whole, large ones by 23 percent, up to 2500. */
  lemma NodesToSendAre(size: nat)
    ensures NodesToSend(size) == if size < 2500 then size else if 23 * size >= 250_000 then 2500 else 23 * size / 100
  {
  }

  /** The advertised share of the table is exceeded exactly by a small table, which is sent whole. */
  lemma ShareKept(size: nat)
    ensures 100 * NodesToSend(size) <= ADDRMAN_GETADDR_MAX_PCT * size <==> size == 0 || size >= ADDRMAN_GETADDR_MAX
  {
  }

  /** The addresses sent are those of the first entries of vRandom, no two of one address. */
  ghost predicate SentFrom(m: InfoMap, vRandom: seq<nat>, vAddr: seq<Address>) {
    && |vAddr| <= |vRandom|
    && (forall n :: 0 <= n < |vAddr| ==> vRandom[n] in m && vAddr[n] == AddressOf(m[vRandom[n]]))
    && (forall i, j :: 0 <= i < j < |vAddr| ==> vAddr[i].svc.ip != vAddr[j].svc.ip)
  }

  /** Entries that only changed their place in vRandom. */
  ghost predicate OnlyPlaces(m: InfoMap, m': InfoMap) {
    m'.Keys == m.Keys && forall id :: id in m ==> Kept(m[id], m'[id])
  }

  lemma SwapSent(m: InfoMap, mapAddr: map<NetAddr, nat>, v: seq<nat>, n: nat, p: nat, vAddr: seq<Address>)
    requires RandomOk(m, v) && AddrOk(m, mapAddr) && n <= p < |v| && |vAddr| == n && SentFrom(m, v, vAddr)
    ensures var m', v' := SwappedInfo(m, v, n, p), Swapped(v, n, p);
      v'[n] in m' && SentFrom(m', v', vAddr + [AddressOf(m'[v'[n]])])
  {
    var m', v' := SwappedInfo(m, v, n, p), Swapped(v, n, p);
    forall i | 0 <= i < n ensures vAddr[i].svc.ip != m'[v'[n]].svc.ip {
      assert v[i] != v[p];
    }
  }

  class CAddrMan {
    const hasher: Hasher
    const routable: NetAddr -> bool
    var nIdCount: nat
    var mapInfo: InfoMap
    var mapAddr: map<NetAddr, nat>
    var vRandom: seq<nat>
    var nTried: int
    var vvTried: seq<seq<nat>>
    var nNew: int
    var vvNew: seq<set<nat>>

    ghost predicate Ok(pend: int, limbo: int)
      reads this
    {
      && IdsOk(mapInfo, nIdCount) && AddrOk(mapInfo, mapAddr) && RandomOk(mapInfo, vRandom)
      && NewOk(mapInfo, vvNew, pend, limbo) && TriedOk(hasher, mapInfo, vvTried)
      && CountsOk(mapInfo, nNew, nTried, limbo)
    }

    /** All indexes agree, and no bucket is too large. */
    ghost predicate Valid()
      reads this
    {
      Ok(-1, -1) && CapsOk(vvNew, vvTried)
    }

    constructor (hasher: Hasher, routable: NetAddr -> bool)
      ensures Valid() && mapInfo == map[]
      ensures this.hasher == hasher && this.routable == routable
    {
      this.hasher, this.routable := hasher, routable;
      nIdCount, mapInfo, mapAddr, vRandom, nTried, nNew := 0, map[], map[], [], 0, 0;
      vvTried := seq(ADDRMAN_TRIED_BUCKET_COUNT, _ => []);
      vvNew := seq(ADDRMAN_NEW_BUCKET_COUNT, _ => {});
      new;
      assert Settled(mapInfo, -1) == {} && TriedIds(mapInfo) == {};
    }

    /** The entry of an address, whatever its port. */
    method Find(ip: NetAddr) returns (found: bool, id: nat)
      requires AddrOk(mapInfo, mapAddr)
      ensures found <==> exists k :: k in mapInfo && mapInfo[k].svc.ip == ip
      ensures found ==> id in mapInfo && mapInfo[id].svc.ip == ip
      ensures found <==> ip in mapAddr
    {
      if ip !in mapAddr { return false, 0; }
      return true, mapAddr[ip];
    }

    method Create(addr: Address, source: NetAddr) returns (id: nat)
      requires Valid() && addr.svc.ip !in mapAddr
      modifies this
      ensures id == old(nIdCount) && id !in old(mapInfo)
      ensures mapInfo == old(mapInfo)[id := Info(addr.svc, addr.nServices, addr.nTime, 0, source, 0, 0, 0, false,
                                                 |old(vRandom)|)]
      ensures vvNew == old(vvNew) && vvTried == old(vvTried) && nNew == old(nNew) && nTried == old(nTried)
      ensures Ok(-1, id)
    {
      hide AddrOk, RandomOk, NewOk, TriedOk, CountsOk, CapsOk;
      id := nIdCount;
      ghost var info := Info(addr.svc, addr.nServices, addr.nTime, 0, source, 0, 0, 0, false, |vRandom|);
      CreateIndexes(mapInfo, nIdCount, mapAddr, vRandom, info);
      CreateTables(hasher, mapInfo, vvNew, vvTried, nNew, nTried, id, info);
      nIdCount := nIdCount + 1;
      mapInfo := mapInfo[id := Info(addr.svc, addr.nServices, addr.nTime, 0, source, 0, 0, 0, false, -1)];
      mapAddr := mapAddr[addr.svc.ip := id];
      mapInfo := mapInfo[id := mapInfo[id].(nRandomPos := |vRandom|)];
      vRandom := vRandom + [id];
    }

    method SwapRandom(nRndPos1: nat, nRndPos2: nat)
      requires RandomOk(mapInfo, vRandom) && nRndPos1 < |vRandom| && nRndPos2 < |vRandom|
      modifies this`vRandom, this`mapInfo
      ensures vRandom == Swapped(old(vRandom), nRndPos1, nRndPos2)
      ensures mapInfo == SwappedInfo(old(mapInfo), old(vRandom), nRndPos1, nRndPos2)
    {
      if nRndPos1 == nRndPos2 { return; }
      var nId1, nId2 := vRandom[nRndPos1], vRandom[nRndPos2];
      mapInfo := mapInfo[nId1 := mapInfo[nId1].(nRandomPos := nRndPos2)];
      mapInfo := mapInfo[nId2 := mapInfo[nId2].(nRandomPos := nRndPos1)];
      vRandom := vRandom[nRndPos1 := nId2];
      vRandom := vRandom[nRndPos2 := nId1];
    }

    /** Delete an entry whose count has come down to zero. */
    method Erase(id: nat, ghost m: InfoMap)
      requires RandomOk(m, vRandom) && id in m && mapInfo == m[id := m[id].(nRefCount := 0)]
      modifies this`mapInfo, this`mapAddr, this`vRandom, this`nNew
      ensures mapInfo == Erased(m, old(vRandom), id)
      ensures vRandom == Swapped(old(vRandom), m[id].nRandomPos, |old(vRandom)| - 1)[..|old(vRandom)| - 1]
      ensures mapAddr == old(mapAddr) - {m[id].svc.ip} && nNew == old(nNew) - 1
    {
      SwapRandom(mapInfo[id].nRandomPos, |vRandom| - 1);
      vRandom := vRandom[..|vRandom| - 1];
      mapAddr := mapAddr - {mapInfo[id].svc.ip};
      mapInfo := mapInfo - {id};
      nNew := nNew - 1;
    }

    /** Take id out of a new bucket, and delete it with its last reference. */
    method Unreference(b: nat, id: nat, ghost pend: int)
      requires Ok(pend, -1) && b < |vvNew| && id in vvNew[b] && id != pend
      modifies this
      ensures Ok(pend, -1)
      ensures Unreferenced(old(mapInfo), id, mapInfo)
      ensures vvNew == old(vvNew)[b := old(vvNew)[b] - {id}]
      ensures vvTried == old(vvTried) && nTried == old(nTried) && nIdCount == old(nIdCount)
    {
      hide IdsOk, AddrOk, RandomOk, NewOk, TriedOk, CountsOk, RefOk;
      ghost var m, v := mapInfo, vRandom;
      DropReferenceKeeps(m, vvNew, b, id, pend);
      mapInfo := mapInfo[id := mapInfo[id].(nRefCount := mapInfo[id].nRefCount - 1)];
      if mapInfo[id].nRefCount == 0 {
        EraseKeeps(hasher, m, nIdCount, mapAddr, v, vvNew[b := vvNew[b] - {id}], vvTried, nNew, nTried, id, pend);
        hide Erased, Swapped;
        Erase(id, m);
      } else {
        CountsIgnoreRefs(hasher, m, nIdCount, mapAddr, v, vvTried, nNew, nTried, -1, id, m[id].nRefCount - 1);
      }
      vvNew := vvNew[b := vvNew[b] - {id}];
    }

    /** Make room in a new bucket: 0 if a terrible entry went, 1 if the oldest of four random ones did. */
    method ShrinkNew(nUBucket: nat, nNow: int, ghost pend: int) returns (r: int, ghost id: nat, ghost n: seq<nat>)
      requires Ok(pend, -1) && nUBucket < |vvNew| && vvNew[nUBucket] != {} && pend !in vvNew[nUBucket]
      modifies this
      ensures Ok(pend, -1)
      ensures id in old(vvNew)[nUBucket] && id in old(mapInfo) && Unreferenced(old(mapInfo), id, mapInfo)
      ensures vvNew == old(vvNew)[nUBucket := old(vvNew)[nUBucket] - {id}]
      ensures vvTried == old(vvTried) && nTried == old(nTried) && nIdCount == old(nIdCount)
      ensures old(vvNew)[nUBucket] <= old(mapInfo).Keys
      ensures r == if exists x :: x in old(vvNew)[nUBucket] && old(mapInfo)[x].IsTerrible(nNow) then 0 else 1
      ensures r == 0 ==> LeastTerrible(old(mapInfo), old(vvNew)[nUBucket], nNow, id)
      ensures r == 1 ==> |n| == 4 && OldestOf(old(mapInfo), old(vvNew)[nUBucket], n, id)
      ensures ToDrop(old(mapInfo), old(vvNew)[nUBucket], nNow, n, id)
    {
      hide AddrOk, RandomOk, TriedOk, CountsOk, RefOk, ToDrop, OldestOf;
      var vNew := vvNew[nUBucket];
      assert forall x :: x in vNew ==> x in vvNew[nUBucket] && x in mapInfo;
      n := [];
      var found, worst := FirstTerrible(mapInfo, vNew, nNow);
      if found {
        DropsTerrible(mapInfo, vNew, nNow, n, worst);
        Unreference(nUBucket, worst, pend);
        return 0, worst, n;
      }
      var n0 := GetRandInt(|vNew|);
      var n1 := GetRandInt(|vNew|);
      var n2 := GetRandInt(|vNew|);
      var n3 := GetRandInt(|vNew|);
      n := [n0, n1, n2, n3];
      var nOldest := OldestPicked(mapInfo, vNew, [n0, n1, n2, n3]);
      DropsOldest(mapInfo, vNew, nNow, n, nOldest);
      Unreference(nUBucket, nOldest, pend);
      return 1, nOldest, n;
    }

    /** As Ok, but id, which is in no bucket yet or on its way out of them, is still counted as new. */
    ghost predicate Moving(id: nat)
      reads this
    {
      && IdsOk(mapInfo, nIdCount) && AddrOk(mapInfo, mapAddr) && RandomOk(mapInfo, vRandom)
      && NewOk(mapInfo, vvNew, -1, id) && TriedOk(hasher, mapInfo, vvTried)
      && CountsOk(mapInfo, nNew - 1, nTried, id)
    }

    method LeaveBucket(id: nat, b: nat)
      requires Moving(id) && b < |vvNew| && id in mapInfo
      modifies this`mapInfo, this`vvNew
      ensures Moving(id) && vvNew == old(vvNew)[b := old(vvNew)[b] - {id}]
      ensures id in mapInfo && mapInfo == old(mapInfo)[id := old(mapInfo)[id].(nRefCount := mapInfo[id].nRefCount)]
    {
      hide IdsOk, AddrOk, RandomOk, NewOk, TriedOk, CountsOk;
      if id in vvNew[b] {
        EraseInLimbo(mapInfo, vvNew, b, id);
        CountsIgnoreRefs(hasher, mapInfo, nIdCount, mapAddr, vRandom, vvTried, nNew - 1, nTried, id, id,
                         mapInfo[id].nRefCount - 1);
        vvNew := vvNew[b := vvNew[b] - {id}];
        mapInfo := mapInfo[id := mapInfo[id].(nRefCount := mapInfo[id].nRefCount - 1)];
      } else {
        assert vvNew[b] - {id} == vvNew[b];
      }
    }

    /** The first loop of MakeTried: id, about to be moved, leaves every new bucket. */
    method LeaveNewBuckets(id: nat)
      requires Ok(-1, -1) && id in mapInfo && !mapInfo[id].fInTried
      modifies this`mapInfo, this`vvNew, this`nNew
      ensures Ok(-1, id) && nNew == old(nNew) - 1
      ensures mapInfo == old(mapInfo)[id := old(mapInfo)[id].(nRefCount := 0)]
      ensures vvNew == Without(old(vvNew), id)
    {
      hide IdsOk, AddrOk, RandomOk, NewOk, TriedOk, CountsOk;
      EnterLimbo(mapInfo, vvNew, nNew, nTried, id);
      ghost var m0, v0 := mapInfo, vvNew;
      var b := 0;
      assert Moving(id);
      while b < |vvNew|
        invariant 0 <= b <= |vvNew| == |v0| && nNew == old(nNew)
        invariant Moving(id) && id in mapInfo && mapInfo == m0[id := m0[id].(nRefCount := mapInfo[id].nRefCount)]
        invariant forall c :: 0 <= c < b ==> vvNew[c] == v0[c] - {id}
        invariant forall c :: b <= c < |vvNew| ==> vvNew[c] == v0[c]
      {
        hide Moving;
        LeaveBucket(id, b);
        b := b + 1;
      }
      nNew := nNew - 1;
      NoReferences(mapInfo, vvNew, id);
    }

    /** Swap two places of a tried bucket. */
    method SwapTried(nKBucket: nat, p: nat, q: nat)
      requires TriedOk(hasher, mapInfo, vvTried) && nKBucket < |vvTried|
      requires p < |vvTried[nKBucket]| && q < |vvTried[nKBucket]|
      modifies this`vvTried
      ensures TriedOk(hasher, mapInfo, vvTried)
      ensures vvTried == old(vvTried)[nKBucket := Swapped(old(vvTried)[nKBucket], p, q)]
    {
      ShuffleTried(hasher, mapInfo, vvTried, nKBucket, p, q);
      hide TriedOk;
      var vTried := vvTried[nKBucket];
      var nTemp := vTried[p];
      vTried := vTried[p := vTried[q]];
      vTried := vTried[q := nTemp];
      vvTried := vvTried[nKBucket := vTried];
    }

    /** Shuffle a tried bucket and return the place of the entry to be replaced. */
    method SelectTried(nKBucket: nat) returns (nOldestPos: int, ghost picks: seq<nat>)
      requires TriedOk(hasher, mapInfo, vvTried)
      requires nKBucket < |vvTried| && vvTried[nKBucket] != []
      modifies this`vvTried
      ensures TriedOk(hasher, mapInfo, vvTried)
      ensures PicksOk(old(vvTried)[nKBucket], picks) && forall x :: x in old(vvTried)[nKBucket] ==> x in mapInfo
      ensures |picks| == if |old(vvTried)[nKBucket]| < ADDRMAN_TRIED_ENTRIES_INSPECT_ON_EVICT
        then |old(vvTried)[nKBucket]| else ADDRMAN_TRIED_ENTRIES_INSPECT_ON_EVICT
      ensures var r := Inspect(mapInfo, old(vvTried)[nKBucket], picks);
        nOldestPos == r.pos && vvTried == old(vvTried)[nKBucket := r.bucket]
      ensures 0 <= nOldestPos < |vvTried[nKBucket]| == |old(vvTried)[nKBucket]|
    {
      hide TriedOk, Inspect, Swapped, PicksOk;
      ghost var s := vvTried[nKBucket];
      TriedMembers(hasher, mapInfo, vvTried, nKBucket);
      NoPicks(mapInfo, s);
      var nOldest: int, i := -1, 0;
      nOldestPos, picks := -1, [];
      while i < ADDRMAN_TRIED_ENTRIES_INSPECT_ON_EVICT && i < |vvTried[nKBucket]|
        invariant nKBucket < |vvTried| && |vvTried[nKBucket]| == |s|
        invariant 0 <= i == |picks| <= |s| && i <= ADDRMAN_TRIED_ENTRIES_INSPECT_ON_EVICT
        invariant TriedOk(hasher, mapInfo, vvTried) && PicksOk(s, picks)
        invariant var r := Inspect(mapInfo, s, picks);
          nOldest == r.oldest && nOldestPos == r.pos && vvTried == old(vvTried)[nKBucket := r.bucket]
      {
        ghost var r := Inspect(mapInfo, s, picks);
        var nRnd := GetRandInt(|vvTried[nKBucket]| - i);
        var nPos := nRnd + i;
        InspectNext(mapInfo, s, picks, nPos);
        var nTemp := vvTried[nKBucket][nPos];
        SwapTried(nKBucket, nPos, i);
        assert nTemp in r.bucket;
        assert vvTried == old(vvTried)[nKBucket := Swapped(r.bucket, nPos, i)];
        if nOldest == -1 || mapInfo[nTemp].nLastSuccess < mapInfo[nOldest].nLastSuccess {
          nOldest := nTemp;
          nOldestPos := nPos;
        }
        picks := picks + [nPos];
        i := i + 1;
      }
    }

    /** id changes places with the tried entry e at nPos of the bucket both belong to; e goes to new bucket b. */
    method TradePlaces(id: nat, nKBucket: nat, nPos: nat, b: nat)
      requires Ok(-1, id) && id in mapInfo && mapInfo[id].nRefCount == 0 && !mapInfo[id].fInTried
      requires nKBucket == hasher.TriedBucket(mapInfo[id].svc) && nKBucket < |vvTried| && nPos < |vvTried[nKBucket]|
      requires b < |vvNew|
      modifies this`mapInfo, this`vvNew, this`vvTried, this`nNew
      ensures Ok(-1, -1) && nNew == old(nNew) + 1
      ensures var e := old(vvTried)[nKBucket][nPos];
        && e in old(mapInfo) && e != id && e !in old(vvNew)[b]
        && mapInfo == old(mapInfo)[e := old(mapInfo)[e].(fInTried := false, nRefCount := 1)]
                                  [id := old(mapInfo)[id].(fInTried := true)]
        && vvNew == old(vvNew)[b := old(vvNew)[b] + {e}]
        && vvTried == PutAt(old(vvTried), nKBucket, nPos, id)
    {
      hide NewOk, CountsOk, IdsOk, AddrOk, RandomOk;
      var e := vvTried[nKBucket][nPos];
      ReplaceTried(hasher, mapInfo, vvTried, id, nPos);
      hide TriedOk;
      ghost var m := mapInfo;
      EvictedKeeps(m, vvNew, nNew, nTried, id, e, b);
      mapInfo := mapInfo[e := mapInfo[e].(fInTried := false)];
      mapInfo := mapInfo[e := mapInfo[e].(nRefCount := 1)];
      vvNew := vvNew[b := vvNew[b] + {e}];
      nNew := nNew + 1;
      vvTried := PutAt(vvTried, nKBucket, nPos, id);
      assert mapInfo == m[e := m[e].(fInTried := false, nRefCount := 1)];
      PlaceTriedNew(mapInfo, vvNew, nNew, nTried - 1, id);
      mapInfo := mapInfo[id := mapInfo[id].(fInTried := true)];
      IndexesIgnore(m, mapInfo, nIdCount, mapAddr, vRandom);
    }

    /** The tried bucket of id has room for it. */
    method PlaceInTried(id: nat, nKBucket: nat)
      requires Ok(-1, id) && id in mapInfo && mapInfo[id].nRefCount == 0 && !mapInfo[id].fInTried
      requires nKBucket == hasher.TriedBucket(mapInfo[id].svc) && nKBucket < |vvTried|
      modifies this`mapInfo, this`vvTried, this`nTried
      ensures Ok(-1, -1) && nTried == old(nTried) + 1
      ensures mapInfo == old(mapInfo)[id := old(mapInfo)[id].(fInTried := true)]
      ensures vvTried == old(vvTried)[nKBucket := old(vvTried)[nKBucket] + [id]]
    {
      hide IdsOk, AddrOk, RandomOk, NewOk, TriedOk, CountsOk;
      PlaceTriedBucket(hasher, mapInfo, vvTried, id);
      PlaceTriedNew(mapInfo, vvNew, nNew, nTried, id);
      IndexesIgnore(mapInfo, mapInfo[id := mapInfo[id].(fInTried := true)], nIdCount, mapAddr, vRandom);
      vvTried := vvTried[nKBucket := vvTried[nKBucket] + [id]];
      nTried := nTried + 1;
      mapInfo := mapInfo[id := mapInfo[id].(fInTried := true)];
    }

    /** The tried bucket of id is full: one of its entries makes way. */
    method ReplaceInTried(id: nat, nKBucket: nat, nOrigin: nat)
      returns (e: nat, b: nat, ghost picks: seq<nat>)
      requires Ok(-1, id) && id in mapInfo && mapInfo[id].nRefCount == 0 && !mapInfo[id].fInTried
      requires nKBucket == hasher.TriedBucket(mapInfo[id].svc) && nKBucket < |vvTried| && vvTried[nKBucket] != []
      requires nOrigin < |vvNew| == ADDRMAN_NEW_BUCKET_COUNT
      modifies this`mapInfo, this`vvNew, this`vvTried, this`nNew
      ensures Ok(-1, -1) && nNew == old(nNew) + 1
      ensures e in old(vvTried)[nKBucket] && e in old(mapInfo) && e != id
      ensures var home := hasher.NewBucket(old(mapInfo)[e].svc, old(mapInfo)[e].source);
        b == if |old(vvNew)[home]| < ADDRMAN_NEW_BUCKET_SIZE then home else nOrigin
      ensures mapInfo == old(mapInfo)[e := old(mapInfo)[e].(fInTried := false, nRefCount := 1)]
                                     [id := old(mapInfo)[id].(fInTried := true)]
      ensures e !in old(vvNew)[b] && vvNew == old(vvNew)[b := old(vvNew)[b] + {e}]
      ensures |vvTried| == |old(vvTried)|
      ensures forall j :: 0 <= j < |vvTried| && j != nKBucket ==> vvTried[j] == old(vvTried)[j]
      ensures Evicts(old(mapInfo), old(vvTried)[nKBucket], picks, id, e, vvTried[nKBucket])
      ensures multiset(vvTried[nKBucket]) == multiset(old(vvTried)[nKBucket]) - multiset{e} + multiset{id}
    {
      hide IdsOk, AddrOk, RandomOk, NewOk, TriedOk, CountsOk, Inspect, PicksOk;
      ghost var s := vvTried[nKBucket];
      var nPos;
      nPos, picks := SelectTried(nKBucket);
      InspectPermutes(mapInfo, s, picks);
      TriedEntry(hasher, mapInfo, vvTried, nKBucket, nPos);
      e := vvTried[nKBucket][nPos];
      assert e in multiset(vvTried[nKBucket]);
      var nUBucket := hasher.NewBucket(mapInfo[e].svc, mapInfo[e].source);
      b := if |vvNew[nUBucket]| < ADDRMAN_NEW_BUCKET_SIZE then nUBucket else nOrigin;
      TradePlaces(id, nKBucket, nPos, b);
    }

    /** Move an entry from the new buckets, nOrigin among them, to its tried bucket. */
    method MakeTried(id: nat, nOrigin: nat)
      requires Valid() && id in mapInfo && nOrigin < |vvNew| && id in vvNew[nOrigin]
      modifies this`mapInfo, this`vvNew, this`vvTried, this`nNew, this`nTried
      ensures Valid()
      ensures |old(vvNew)| == ADDRMAN_NEW_BUCKET_COUNT && |old(vvTried)| == ADDRMAN_TRIED_BUCKET_COUNT
      ensures Promoted(hasher, old(mapInfo), old(vvNew), old(vvTried), id, mapInfo, vvNew, vvTried)
    {
      hide IdsOk, AddrOk, RandomOk, NewOk, TriedOk, CountsOk, CapsOk, Without, Promoted;
      NewEntry(mapInfo, nIdCount, vvNew, id, nOrigin);
      BucketCounts(hasher, mapInfo, vvNew, vvTried);
      ghost var m0, v0, t0 := mapInfo, vvNew, vvTried;
      LeaveNewBuckets(id);
      WithoutSmaller(v0, vvTried, id, nOrigin);
      var nKBucket := hasher.TriedBucket(mapInfo[id].svc);
      if |vvTried[nKBucket]| < ADDRMAN_TRIED_BUCKET_SIZE {
        PlaceInTried(id, nKBucket);
        PromotedWithRoom(hasher, m0, v0, t0, id);
      } else {
        ghost var m1 := mapInfo;
        TriedMembers(hasher, m1, vvTried, nKBucket);
        var e, b, picks := ReplaceInTried(id, nKBucket, nOrigin);
        EvictsSame(m1, m0, t0[nKBucket], picks, id, e, vvTried[nKBucket]);
        PromotedByTrade(hasher, m0, v0, t0, id, nOrigin, e, b, picks, vvTried);
      }
    }

    /** An announced address is not in the tables. */
    ghost predicate Unknown(addr: Service)
      reads this
    {
      forall id :: id in mapInfo ==> mapInfo[id].svc != addr
    }

    twostate predicate SameState()
      reads this
    {
      && mapInfo == old(mapInfo) && mapAddr == old(mapAddr) && vRandom == old(vRandom)
      && vvNew == old(vvNew) && vvTried == old(vvTried)
      && nNew == old(nNew) && nTried == old(nTried) && nIdCount == old(nIdCount)
    }

    /** The same tables, up to one entry that changed in what no index looks at. */
    twostate predicate OneEntry(id: nat, info: Info)
      reads this
    {
      && mapInfo == old(mapInfo)[id := info] && mapAddr == old(mapAddr) && vRandom == old(vRandom)
      && vvNew == old(vvNew) && vvTried == old(vvTried)
      && nNew == old(nNew) && nTried == old(nTried) && nIdCount == old(nIdCount)
    }

    /** Overwrite what no index looks at. */
    method SetInfo(id: nat, info: Info)
      requires Valid() && id in mapInfo
      requires info.svc == mapInfo[id].svc && info.fInTried == mapInfo[id].fInTried
      requires info.nRefCount == mapInfo[id].nRefCount && info.nRandomPos == mapInfo[id].nRandomPos
      modifies this`mapInfo
      ensures Valid() && OneEntry(id, info)
    {
      hide IdsOk, AddrOk, RandomOk, NewOk, TriedOk, CountsOk, CapsOk;
      TouchKeeps(hasher, mapInfo, nIdCount, mapAddr, vRandom, vvNew, vvTried, nNew, nTried, -1, -1, id, info);
      mapInfo := mapInfo[id := info];
    }

    /** A new bucket that holds id, looking from a random one on. */
    method FindBucket(id: nat) returns (nUBucket: nat)
      requires Valid() && id in mapInfo && !mapInfo[id].fInTried
      ensures nUBucket < |vvNew| && id in vvNew[nUBucket]
    {
      HasBucket(mapInfo, vvNew, id);
      hide IdsOk, AddrOk, RandomOk, TriedOk, CountsOk, CapsOk, RefOk;
      var size := |vvNew|;
      var nRnd := GetRandInt(size);
      ghost var c :| 0 <= c < size && id in vvNew[c];
      ghost var at := if c >= nRnd then c - nRnd else c + size - nRnd;
      for n := 0 to size
        invariant n <= at
      {
        var nB := (n + nRnd) % size;
        WrapAround(n, nRnd, size);
        if id in vvNew[nB] { return nB; }
      }
      assert false;
    }

    /** The entry of an address with this very port. */
    method FindExact(addr: Service) returns (found: bool, id: nat)
      requires Valid()
      ensures found <==> !Unknown(addr)
      ensures found ==> id in mapInfo && mapInfo[id].svc == addr && addr.ip in mapAddr && mapAddr[addr.ip] == id
    {
      found, id := Find(addr.ip);
      OnlyOne(mapInfo, mapAddr, addr);
      if !found { return; }
      if mapInfo[id].svc != addr { found := false; }
    }

    /** A connection to addr succeeded at nTime. */
    method Good_(addr: Service, nTime: int)
      requires Valid()
      modifies this
      ensures Valid()
      ensures old(TimesOk(mapInfo)) && nTime > 0 ==> TimesOk(mapInfo)
      ensures |old(vvNew)| == ADDRMAN_NEW_BUCKET_COUNT && |old(vvTried)| == ADDRMAN_TRIED_BUCKET_COUNT
      ensures old(Unknown(addr)) ==> SameState()
      ensures !old(Unknown(addr)) ==>
        && addr.ip in old(mapAddr) && old(mapAddr)[addr.ip] in old(mapInfo)
        && var id := old(mapAddr)[addr.ip];
           var info := old(mapInfo)[id].(nLastSuccess := nTime, nLastTry := nTime, nTime := nTime, nAttempts := 0);
           && info.svc == addr
           && (if info.fInTried then OneEntry(id, info)
               else Promoted(hasher, old(mapInfo)[id := info], old(vvNew), old(vvTried), id, mapInfo, vvNew, vvTried))
           && vRandom == old(vRandom) && mapAddr == old(mapAddr) && nIdCount == old(nIdCount)
    {
      hide IdsOk, AddrOk, RandomOk, NewOk, TriedOk, CountsOk, CapsOk, Promoted, TimesOk, Unknown;
      BucketCounts(hasher, mapInfo, vvNew, vvTried);
      var found, id := FindExact(addr);
      if !found { return; }
      TimesAfterSuccess(mapInfo, id, nTime);
      SetInfo(id, mapInfo[id].(nLastSuccess := nTime, nLastTry := nTime, nTime := nTime, nAttempts := 0));
      if mapInfo[id].fInTried { return; }
      var nUBucket := FindBucket(id);
      ghost var m, v, t := mapInfo, vvNew, vvTried;
      MakeTried(id, nUBucket);
      TimesAfterPromotion(hasher, m, v, t, id, mapInfo, vvNew, vvTried);
    }

    /** One more on the count of id, ahead of the bucket. */
    method Reference(id: nat)
      requires id in mapInfo && !mapInfo[id].fInTried
      requires if mapInfo[id].nRefCount == 0 then Moving(id)
        else Ok(-1, -1) && mapInfo[id].nRefCount < ADDRMAN_NEW_BUCKETS_PER_ADDRESS
      modifies this`mapInfo
      ensures Ok(id, -1)
      ensures mapInfo == old(mapInfo)[id := old(mapInfo)[id].(nRefCount := old(mapInfo)[id].nRefCount + 1)]
    {
      hide IdsOk, AddrOk, RandomOk, NewOk, TriedOk, CountsOk;
      if mapInfo[id].nRefCount == 0 {
        CountNewKeeps(mapInfo, vvNew, nNew - 1, nTried, id);
        IndexesIgnore(mapInfo, mapInfo[id := mapInfo[id].(nRefCount := 1)], nIdCount, mapAddr, vRandom);
        TriedIgnore(hasher, mapInfo, vvTried, id, 1);
      } else {
        ReferenceKeeps(mapInfo, vvNew, id);
        CountsIgnoreRefs(hasher, mapInfo, nIdCount, mapAddr, vRandom, vvTried, nNew, nTried, -1, id,
                         mapInfo[id].nRefCount + 1);
      }
      mapInfo := mapInfo[id := mapInfo[id].(nRefCount := mapInfo[id].nRefCount + 1)];
    }

    method MakeRoom(b: nat, nNow: int, ghost id: nat)
      requires Ok(id, -1) && b < |vvNew| && id !in vvNew[b]
      modifies this
      ensures Ok(id, -1) && Roomed(old(mapInfo), old(vvNew), b, nNow, mapInfo, vvNew)
      ensures vvTried == old(vvTried) && nTried == old(nTried) && nIdCount == old(nIdCount)
    {
      hide Ok, Unreferenced, OldestOf, LeastTerrible;
      if |vvNew[b]| == ADDRMAN_NEW_BUCKET_SIZE {
        assert vvNew[b] != {};
        var r, x, n := ShrinkNew(b, nNow, id);
      }
    }

    /** The end of Add_: a reference to id in new bucket b. */
    method FileIn(id: nat, b: nat, nNow: int)
      requires id in mapInfo && !mapInfo[id].fInTried && b < |vvNew| && CapsOk(vvNew, vvTried)
      requires if mapInfo[id].nRefCount == 0 then Moving(id)
        else Ok(-1, -1) && mapInfo[id].nRefCount < ADDRMAN_NEW_BUCKETS_PER_ADDRESS
      modifies this
      ensures Valid()
      ensures Filed(old(mapInfo), old(vvNew), b, id, nNow, mapInfo, vvNew)
      ensures vvTried == old(vvTried) && nTried == old(nTried) && nIdCount == old(nIdCount)
    {
      hide IdsOk, AddrOk, RandomOk, NewOk, TriedOk, CountsOk, CapsOk, Roomed;
      ghost var v0 := vvNew;
      if mapInfo[id].nRefCount == 0 { NoBucketYet(mapInfo, vvNew, id, b); }
      if id !in vvNew[b] {
        Reference(id);
        ghost var m1 := mapInfo;
        MakeRoom(b, nNow, id);
        StillThere(m1, v0, b, id, nNow, mapInfo, vvNew);
        CapsAfterInsert(m1, v0, vvTried, b, id, nNow, mapInfo, vvNew);
        InsertKeeps(mapInfo, vvNew, b, id);
        vvNew := vvNew[b := vvNew[b] + {id}];
      }
    }

    /** Add_ for an address that has an entry; nRandom is what the random generator gives. */
    method AddKnown(addr: Address, source: NetAddr, nTimePenalty: int, nNow: int, nRandom: nat, id: nat)
      requires Valid() && id in mapInfo
      modifies this
      ensures Valid() && vvTried == old(vvTried) && nTried == old(nTried)
      ensures |old(vvNew)| == ADDRMAN_NEW_BUCKET_COUNT
      ensures var info := Refreshed(old(mapInfo)[id], addr, nTimePenalty, nNow);
        if Refiled(info, addr, nRandom)
        then Filed(old(mapInfo)[id := info], old(vvNew), hasher.NewBucket(info.svc, source), id, nNow, mapInfo, vvNew)
        else OneEntry(id, info)
    {
      hide IdsOk, AddrOk, RandomOk, NewOk, TriedOk, CountsOk, CapsOk, Filed;
      BucketCounts(hasher, mapInfo, vvNew, vvTried);
      var fCurrentlyOnline := nNow - addr.nTime < 24 * 60 * 60;
      var nUpdateInterval := if fCurrentlyOnline then 60 * 60 else 24 * 60 * 60;
      var info := mapInfo[id];
      if addr.nTime != 0 && (info.nTime == 0 || info.nTime < addr.nTime - nUpdateInterval - nTimePenalty) {
        info := info.(nTime := Max(0, addr.nTime - nTimePenalty));
      }
      info := info.(nServices := info.nServices + addr.nServices);
      assert info == Refreshed(mapInfo[id], addr, nTimePenalty, nNow);
      SetInfo(id, info);
      if addr.nTime == 0 || (info.nTime != 0 && addr.nTime <= info.nTime) { return; }
      if info.fInTried { return; }
      if info.nRefCount == ADDRMAN_NEW_BUCKETS_PER_ADDRESS { return; }
      CountBounds(mapInfo, vvNew, id);
      var nFactor := 1;
      for n := 0 to info.nRefCount
        invariant nFactor == Pow2(n)
      {
        nFactor := nFactor * 2;
      }
      if nFactor > 1 && nRandom % nFactor != 0 { return; }
      FileIn(id, hasher.NewBucket(info.svc, source), nNow);
    }

    /** The entry of an address that has none, in no bucket yet. */
    method Admit(addr: Address, source: NetAddr, nTimePenalty: int) returns (id: nat)
      requires Valid() && addr.svc.ip !in mapAddr
      modifies this
      ensures Moving(id) && id == old(nIdCount)
      ensures mapInfo == old(mapInfo)[id := Announced(addr, source, nTimePenalty, |old(vRandom)|)]
      ensures vvNew == old(vvNew) && vvTried == old(vvTried) && nTried == old(nTried)
    {
      hide IdsOk, AddrOk, RandomOk, NewOk, TriedOk, CountsOk, CapsOk;
      id := Create(addr, source);
      TouchKeeps(hasher, mapInfo, nIdCount, mapAddr, vRandom, vvNew, vvTried, nNew, nTried, -1, id, id,
                 mapInfo[id].(nTime := Max(0, mapInfo[id].nTime - nTimePenalty)));
      mapInfo := mapInfo[id := mapInfo[id].(nTime := Max(0, mapInfo[id].nTime - nTimePenalty))];
      nNew := nNew + 1;
    }

    /** Add_ for an address without an entry. */
    method AddNew(addr: Address, source: NetAddr, nTimePenalty: int, nNow: int)
      requires Valid() && addr.svc.ip !in mapAddr
      modifies this
      ensures Valid() && vvTried == old(vvTried) && nTried == old(nTried)
      ensures |old(vvNew)| == ADDRMAN_NEW_BUCKET_COUNT
      ensures var m := old(mapInfo)[old(nIdCount) := Announced(addr, source, nTimePenalty, |old(vRandom)|)];
        Filed(m, old(vvNew), hasher.NewBucket(addr.svc, source), old(nIdCount), nNow, mapInfo, vvNew)
    {
      assert |vvNew| == ADDRMAN_NEW_BUCKET_COUNT;
      assert CapsOk(vvNew, vvTried);
      hide Ok, Moving, CapsOk, Filed;
      var id := Admit(addr, source, nTimePenalty);
      FileIn(id, hasher.NewBucket(mapInfo[id].svc, source), nNow);
    }

    /** An announcement of addr by source; nNow is the adjusted time, nRandom what the random generator gives. True if
        the address is new. */
    method Add_(addr: Address, source: NetAddr, nTimePenalty: int, nNow: int, nRandom: nat) returns (fNew: bool)
      requires Valid()
      modifies this
      ensures Valid() && vvTried == old(vvTried) && nTried == old(nTried)
      ensures old(TimesOk(mapInfo)) ==> TimesOk(mapInfo)
      ensures !routable(addr.svc.ip) ==> SameState()
      ensures fNew <==>
        routable(addr.svc.ip) && forall id :: id in old(mapInfo) ==> old(mapInfo)[id].svc.ip != addr.svc.ip
      ensures routable(addr.svc.ip) ==> exists id :: id in mapInfo && mapInfo[id].svc.ip == addr.svc.ip
      ensures |old(vvNew)| == ADDRMAN_NEW_BUCKET_COUNT
      ensures fNew ==>
        var m := old(mapInfo)[old(nIdCount) := Announced(addr, source, nTimePenalty, |old(vRandom)|)];
        Filed(m, old(vvNew), hasher.NewBucket(addr.svc, source), old(nIdCount), nNow, mapInfo, vvNew)
      ensures !fNew && routable(addr.svc.ip) ==>
        && addr.svc.ip in old(mapAddr) && old(mapAddr)[addr.svc.ip] in old(mapInfo)
        && var id := old(mapAddr)[addr.svc.ip];
           var info := Refreshed(old(mapInfo)[id], addr, nTimePenalty, nNow);
           if Refiled(info, addr, nRandom)
           then Filed(old(mapInfo)[id := info], old(vvNew), hasher.NewBucket(info.svc, source), id, nNow, mapInfo, vvNew)
           else OneEntry(id, info)
    {
      assert |vvNew| == ADDRMAN_NEW_BUCKET_COUNT;
      if !routable(addr.svc.ip) { return false; }
      var found, id := Find(addr.svc.ip);
      hide IdsOk, RandomOk, NewOk, TriedOk, CountsOk, CapsOk, Filed, TimesOk;
      ghost var m, v := mapInfo, vvNew;
      if found {
        assert mapAddr[addr.svc.ip] == id;
        hide AddrOk;
        AddKnown(addr, source, nTimePenalty, nNow, nRandom, id);
        TimesAfterKnown(hasher, m, v, addr, source, nTimePenalty, nNow, id, mapInfo, vvNew);
        return false;
      }
      hide AddrOk;
      ghost var i := nIdCount;
      AddNew(addr, source, nTimePenalty, nNow);
      TimesAfterNew(m, i, Announced(addr, source, nTimePenalty, |old(vRandom)|));
      FiledKeeps(m[i := Announced(addr, source, nTimePenalty, |old(vRandom)|)], v,
                 hasher.NewBucket(addr.svc, source), i, nNow, mapInfo, vvNew);
      return true;
    }

    /** A connection to addr is being tried at nTime. */
    method Attempt_(addr: Service, nTime: int)
      requires Valid()
      modifies this
      ensures Valid()
      ensures old(TimesOk(mapInfo)) && nTime >= 0 ==> TimesOk(mapInfo)
      ensures old(Unknown(addr)) ==> SameState()
      ensures !old(Unknown(addr)) ==>
        && addr.ip in old(mapAddr) && old(mapAddr)[addr.ip] in old(mapInfo)
        && var id := old(mapAddr)[addr.ip];
           OneEntry(id, old(mapInfo)[id].(nLastTry := nTime, nAttempts := old(mapInfo)[id].nAttempts + 1))
    {
      hide IdsOk, AddrOk, RandomOk, NewOk, TriedOk, CountsOk, CapsOk, TimesOk, Unknown;
      var found, id := FindExact(addr);
      if !found { return; }
      TimesAfter(mapInfo, id, mapInfo[id].(nLastTry := nTime, nAttempts := mapInfo[id].nAttempts + 1));
      SetInfo(id, mapInfo[id].(nLastTry := nTime, nAttempts := mapInfo[id].nAttempts + 1));
    }

    /** addr is connected at nTime. */
    method Connected_(addr: Service, nTime: int)
      requires Valid()
      modifies this
      ensures Valid()
      ensures old(TimesOk(mapInfo)) ==> TimesOk(mapInfo)
      ensures old(Unknown(addr)) ==> SameState()
      ensures !old(Unknown(addr)) ==>
        && addr.ip in old(mapAddr) && old(mapAddr)[addr.ip] in old(mapInfo)
        && var id := old(mapAddr)[addr.ip];
           if nTime - old(mapInfo)[id].nTime > 20 * 60 then OneEntry(id, old(mapInfo)[id].(nTime := nTime))
           else SameState()
    {
      hide IdsOk, AddrOk, RandomOk, NewOk, TriedOk, CountsOk, CapsOk, TimesOk, Unknown;
      var found, id := FindExact(addr);
      if !found { return; }
      var nUpdateInterval := 20 * 60;
      if nTime - mapInfo[id].nTime > nUpdateInterval {
        TimesAfter(mapInfo, id, mapInfo[id].(nTime := nTime));
        SetInfo(id, mapInfo[id].(nTime := nTime));
      }
    }

    /** Swap two places of vRandom that come after those already sent. */
    method ShuffleRandom(n: nat, p: nat, ghost vAddr: seq<Address>)
      requires Valid() && n <= p < |vRandom| && |vAddr| == n && SentFrom(mapInfo, vRandom, vAddr)
      modifies this`vRandom, this`mapInfo
      ensures Valid() && |vRandom| == |old(vRandom)| && vRandom[n] in mapInfo
      ensures SentFrom(mapInfo, vRandom, vAddr + [AddressOf(mapInfo[vRandom[n]])])
      ensures multiset(vRandom) == multiset(old(vRandom))
      ensures forall m :: OnlyPlaces(m, old(mapInfo)) ==> OnlyPlaces(m, mapInfo)
    {
      hide IdsOk, AddrOk, NewOk, TriedOk, CountsOk, CapsOk, SentFrom;
      SwapKeeps(mapInfo, vRandom, n, p);
      SwapSent(mapInfo, mapAddr, vRandom, n, p, vAddr);
      SameTablesKeep(hasher, mapInfo, SwappedInfo(mapInfo, vRandom, n, p), nIdCount, mapAddr, vvNew, vvTried,
                     nNew, nTried, -1, -1);
      SwapRandom(n, p);
    }

    /** Some entries, each at most once, in a random order. */
    method GetAddr_() returns (vAddr: seq<Address>)
      requires Valid()
      modifies this`vRandom, this`mapInfo
      ensures Valid()
      ensures |vAddr| == NodesToSend(|old(vRandom)|)
      ensures SentFrom(mapInfo, vRandom, vAddr)
      ensures forall i :: 0 <= i < |vAddr| ==>
        && i < |vRandom| && vRandom[i] in mapInfo
        && vAddr[i] == Address(mapInfo[vRandom[i]].svc, mapInfo[vRandom[i]].nServices, mapInfo[vRandom[i]].nTime)
      ensures multiset(vRandom) == multiset(old(vRandom))
      ensures OnlyPlaces(old(mapInfo), mapInfo)
    {
      var nNodes := ADDRMAN_GETADDR_MAX_PCT * |vRandom| / 100;
      if nNodes > ADDRMAN_GETADDR_MAX { nNodes := ADDRMAN_GETADDR_MAX; }
      if |vRandom| < ADDRMAN_GETADDR_MAX { nNodes := |vRandom|; }
      vAddr := [];
      for n := 0 to nNodes
        invariant Valid() && |vAddr| == n && nNodes <= |vRandom| == |old(vRandom)|
        invariant SentFrom(mapInfo, vRandom, vAddr)
        invariant multiset(vRandom) == multiset(old(vRandom))
        invariant OnlyPlaces(old(mapInfo), mapInfo)
      {
        hide IdsOk, AddrOk, NewOk, TriedOk, CountsOk, CapsOk, RandomOk, OnlyPlaces, SentFrom;
        var nRnd := GetRandInt(|vRandom| - n);
        var nRndPos := nRnd + n;
        ShuffleRandom(n, nRndPos, vAddr);
        vAddr := vAddr + [AddressOf(mapInfo[vRandom[n]])];
      }
    }
  }
}
