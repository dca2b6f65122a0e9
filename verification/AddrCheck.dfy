/** The address manager's own consistency check, and what it leaves unchecked (src/addrman.cpp: Check_). */
module AddrCheck {
  import opened AddrInfo
  import opened AddrMan

  // ---- what Check_ looks at ----

  /** std::map's operator[]: an absent key reads as 0. */
  function LookUp<K>(m: map<K, int>, key: K): int {
    if key in m then m[key] else 0
  }

  ghost predicate EntryChecked(m: InfoMap, mapAddr: map<NetAddr, nat>, vRandom: seq<nat>, id: nat)
    requires id in m
  {
    && (if m[id].fInTried then m[id].nLastSuccess != 0 && m[id].nRefCount == 0
        else 1 <= m[id].nRefCount <= ADDRMAN_NEW_BUCKETS_PER_ADDRESS)
    && LookUp(mapAddr, m[id].svc.ip) == id
    && 0 <= m[id].nRandomPos < |vRandom| && vRandom[m[id].nRandomPos] == id
    && m[id].nLastTry >= 0 && m[id].nLastSuccess >= 0
  }

  /** How often each id occurs in the first n tried buckets. */
  ghost function TriedBag(vvTried: seq<seq<nat>>, n: nat): multiset<nat>
    requires n <= |vvTried|
  {
    if n == 0 then multiset{} else TriedBag(vvTried, n - 1) + multiset(vvTried[n - 1])
  }

  ghost function NewBag(vvNew: seq<set<nat>>, n: nat): multiset<nat>
    requires n <= |vvNew|
  {
    if n == 0 then multiset{} else NewBag(vvNew, n - 1) + multiset(vvNew[n - 1])
  }

  /** The reference count of a new entry; 0 for anything else. */
  ghost function RefsOf(m: InfoMap, id: nat): int {
    if id in m && !m[id].fInTried then m[id].nRefCount else 0
  }

  /** What makes Check_ return 0. */
  ghost predicate Checked(m: InfoMap, mapAddr: map<NetAddr, nat>, vRandom: seq<nat>, vvNew: seq<set<nat>>,
                          vvTried: seq<seq<nat>>, nNew: int, nTried: int) {
    && |vRandom| == nTried + nNew
    && (forall id :: id in m ==> EntryChecked(m, mapAddr, vRandom, id))
    && |TriedIds(m)| == nTried && |NewIds(m)| == nNew
    && TriedBag(vvTried, |vvTried|) == multiset(TriedIds(m))
    && forall id :: NewBag(vvNew, |vvNew|)[id] == RefsOf(m, id)
  }

  lemma {:induction false} TriedBagGrows(vvTried: seq<seq<nat>>, n: nat, k: nat)
    requires n <= k <= |vvTried|
    ensures TriedBag(vvTried, n) <= TriedBag(vvTried, k)
  {
    if n < k { TriedBagGrows(vvTried, n, k - 1); }
  }

  lemma {:induction false} NewBagGrows(vvNew: seq<set<nat>>, n: nat, k: nat)
    requires n <= k <= |vvNew|
    ensures NewBag(vvNew, n) <= NewBag(vvNew, k)
  {
    if n < k { NewBagGrows(vvNew, n, k - 1); }
  }

  // ---- the check ----

  /** The loop over the entries: 0, or the code of what is wrong, and the ids found in the two kinds. */
  method CheckEntries(m: InfoMap, mapAddr: map<NetAddr, nat>, vRandom: seq<nat>)
    returns (r: int, setTried: set<nat>, mapNew: map<nat, int>)
    ensures r == 0 <==> forall id :: id in m ==> EntryChecked(m, mapAddr, vRandom, id)
    ensures r == 0 ==> setTried == TriedIds(m) && mapNew.Keys == NewIds(m)
    ensures r == 0 ==> forall id :: id in mapNew ==> mapNew[id] == m[id].nRefCount
  {
    var todo := m.Keys;
    setTried, mapNew := {}, map[];
    while todo != {}
      invariant todo <= m.Keys
      invariant forall id :: id in m && id !in todo ==> EntryChecked(m, mapAddr, vRandom, id)
      invariant forall id :: id in setTried <==> id in m && id !in todo && m[id].fInTried
      invariant forall id :: id in mapNew <==> id in m && id !in todo && !m[id].fInTried
      invariant forall id :: id in mapNew ==> mapNew[id] == m[id].nRefCount
      decreases todo
    {
      var n := MinOf(todo);
      var info := m[n];
      if info.fInTried {
        if info.nLastSuccess == 0 { return -1, setTried, mapNew; }
        if info.nRefCount != 0 { return -2, setTried, mapNew; }
        setTried := setTried + {n};
      } else {
        if info.nRefCount < 0 || info.nRefCount > ADDRMAN_NEW_BUCKETS_PER_ADDRESS { return -3, setTried, mapNew; }
        if info.nRefCount == 0 { return -4, setTried, mapNew; }
        mapNew := mapNew[n := info.nRefCount];
      }
      if LookUp(mapAddr, info.svc.ip) != n { return -5, setTried, mapNew; }
      if info.nRandomPos < 0 || info.nRandomPos >= |vRandom| || vRandom[info.nRandomPos] != n {
        return -14, setTried, mapNew;
      }
      if info.nLastTry < 0 { return -6, setTried, mapNew; }
      if info.nLastSuccess < 0 { return -8, setTried, mapNew; }
      todo := todo - {n};
    }
    r := 0;
  }

  /** The loop over the tried buckets: true when every id was still to be seen, with those never seen. */
  method CheckTried(vvTried: seq<seq<nat>>, setTried: set<nat>) returns (ok: bool, rest: set<nat>)
    ensures ok && rest == {} <==> TriedBag(vvTried, |vvTried|) == multiset(setTried)
  {
    rest := setTried;
    for n := 0 to |vvTried|
      invariant TriedBag(vvTried, n) + multiset(rest) == multiset(setTried)
    {
      var vTried := vvTried[n];
      for p := 0 to |vTried|
        invariant TriedBag(vvTried, n) + multiset(vTried[..p]) + multiset(rest) == multiset(setTried)
      {
        var id := vTried[p];
        assert vTried[..p + 1] == vTried[..p] + [id];
        if id !in rest {
          assert vTried == vTried[..p + 1] + vTried[p + 1..];
          TriedBagGrows(vvTried, n + 1, |vvTried|);
          assert TriedBag(vvTried, |vvTried|)[id] > multiset(setTried)[id];
          return false, rest;
        }
        rest := rest - {id};
      }
      assert vTried[..|vTried|] == vTried;
    }
    ok := true;
  }

  /** The loop over the new buckets. */
  /** Take one bucket's ids off the counts; stops at one that has no count left. */
  method CheckBucket(bucket: set<nat>, mapNew: map<nat, int>) returns (ok: bool, rest: map<nat, int>)
    requires forall id :: id in mapNew ==> mapNew[id] > 0
    ensures forall id :: id in rest ==> rest[id] > 0
    ensures ok <==> bucket <= mapNew.Keys
    ensures ok ==> forall id :: multiset(bucket)[id] + LookUp(rest, id) == LookUp(mapNew, id)
  {
    rest := mapNew;
    var todo := bucket;
    while todo != {}
      invariant todo <= bucket && bucket - todo <= mapNew.Keys
      invariant forall id :: id in rest ==> rest[id] > 0
      invariant forall id :: multiset(bucket - todo)[id] + LookUp(rest, id) == LookUp(mapNew, id)
      decreases todo
    {
      var it := MinOf(todo);
      if it !in rest {
        assert LookUp(rest, it) == LookUp(mapNew, it);
        return false, rest;
      }
      assert LookUp(mapNew, it) == rest[it];
      rest := if rest[it] == 1 then rest - {it} else rest[it := rest[it] - 1];
      todo := todo - {it};
    }
    assert bucket - {} == bucket;
    ok := true;
  }

  method CheckNew(vvNew: seq<set<nat>>, mapNew: map<nat, int>) returns (ok: bool, rest: map<nat, int>)
    requires forall id :: id in mapNew ==> mapNew[id] > 0
    ensures ok && rest == map[] <==>
      forall id :: NewBag(vvNew, |vvNew|)[id] == if id in mapNew then mapNew[id] else 0
  {
    rest := mapNew;
    for n := 0 to |vvNew|
      invariant forall id :: id in rest ==> rest[id] > 0
      invariant forall id :: NewBag(vvNew, n)[id] + LookUp(rest, id) == LookUp(mapNew, id)
    {
      ghost var before := rest;
      ok, rest := CheckBucket(vvNew[n], rest);
      if !ok {
        ghost var it :| it in vvNew[n] && it !in before;
        NewBagGrows(vvNew, n + 1, |vvNew|);
        assert NewBag(vvNew, |vvNew|)[it] > LookUp(mapNew, it);
        return;
      }
    }
    if rest != map[] {
      HasMember(rest.Keys);
      ghost var id :| id in rest.Keys;
      assert LookUp(rest, id) > 0;
    }
    ok := true;
  }

  method Check_(m: InfoMap, mapAddr: map<NetAddr, nat>, vRandom: seq<nat>, vvNew: seq<set<nat>>,
                vvTried: seq<seq<nat>>, nNew: int, nTried: int) returns (r: int)
    ensures r == 0 <==> Checked(m, mapAddr, vRandom, vvNew, vvTried, nNew, nTried)
  {
    if |vRandom| != nTried + nNew { return -7; }
    var setTried, mapNew;
    r, setTried, mapNew := CheckEntries(m, mapAddr, vRandom);
    if r != 0 { return; }
    if |setTried| != nTried { return -9; }
    if |mapNew| != nNew {
      assert |NewIds(m)| == |mapNew.Keys| == |mapNew|;
      return -10;
    }
    assert forall id :: id in mapNew ==> EntryChecked(m, mapAddr, vRandom, id);
    var triedOk, triedRest := CheckTried(vvTried, setTried);
    if !triedOk { return -11; }
    var newOk, newRest := CheckNew(vvNew, mapNew);
    assert forall id :: RefsOf(m, id) == if id in mapNew then mapNew[id] else 0;
    if !newOk { return -12; }
    if triedRest != {} { return -13; }
    if newRest != map[] { return -15; }
    assert |NewIds(m)| == |mapNew.Keys| == |mapNew|;
    return 0;
  }

  // ---- what it leaves unchecked ----

  lemma {:induction false} NewBagCounts(vvNew: seq<set<nat>>, n: nat, id: nat)
    requires n <= |vvNew|
    ensures NewBag(vvNew, n)[id] == |set b | 0 <= b < n && id in vvNew[b]|
  {
    if n > 0 {
      NewBagCounts(vvNew, n - 1, id);
      var before, all := set b | 0 <= b < n - 1 && id in vvNew[b], set b | 0 <= b < n && id in vvNew[b];
      if id in vvNew[n - 1] {
        assert all == before + {n - 1};
      } else {
        assert all == before;
      }
    }
  }

  lemma AllBuckets(vvNew: seq<set<nat>>, id: nat)
    ensures NewBag(vvNew, |vvNew|)[id] == |BucketsOf(vvNew, id)|
  {
    NewBagCounts(vvNew, |vvNew|, id);
    assert BucketsOf(vvNew, id) == set b | 0 <= b < |vvNew| && id in vvNew[b];
  }

  lemma {:induction false} DistinctBag(s: seq<nat>)
    ensures NoDuplicates(s) <==> forall x :: multiset(s)[x] <= 1
  {
    if s != [] {
      var n := |s| - 1;
      assert s == s[..n] + [s[n]];
      DistinctBag(s[..n]);
      if NoDuplicates(s[..n]) && s[n] !in s[..n] {
        forall x ensures multiset(s)[x] <= 1 {
          assert multiset(s)[x] == multiset(s[..n])[x] + multiset([s[n]])[x];
        }
      }
      if s[n] in s[..n] { assert multiset(s)[s[n]] >= 2; }
      if !NoDuplicates(s[..n]) {
        var x :| multiset(s[..n])[x] > 1;
        assert multiset(s)[x] > 1;
      }
    }
  }

  ghost function Members(s: seq<nat>): set<nat> {
    set x: nat | x in s
  }

  lemma {:induction false} DistinctLength(s: seq<nat>)
    requires NoDuplicates(s)
    ensures |Members(s)| == |s|
  {
    if s != [] {
      var n := |s| - 1;
      DistinctLength(s[..n]);
      assert s == s[..n] + [s[n]];
      assert Members(s) == Members(s[..n]) + {s[n]};
    }
  }

  /** The entries a random order names are those it has room for. */
  lemma RandomLength(m: InfoMap, vRandom: seq<nat>)
    requires RandomOk(m, vRandom)
    ensures |vRandom| == |m.Keys|
  {
    forall i, j | 0 <= i < j < |vRandom| ensures vRandom[i] != vRandom[j] {
      assert m[vRandom[i]].nRandomPos == i && m[vRandom[j]].nRandomPos == j;
    }
    DistinctLength(vRandom);
    forall id | id in m ensures id in vRandom { assert vRandom[m[id].nRandomPos] == id; }
    assert Members(vRandom) == m.Keys;
  }

  /** With as many places as entries, every place is taken. */
  lemma RandomFull(m: InfoMap, vRandom: seq<nat>)
    requires |vRandom| == |m.Keys|
    requires forall id :: id in m ==> 0 <= m[id].nRandomPos < |vRandom| && vRandom[m[id].nRandomPos] == id
    ensures RandomOk(m, vRandom)
  {
    var seen := Members(vRandom);
    forall id | id in m ensures id in seen { assert vRandom[m[id].nRandomPos] == id; }
    assert m.Keys <= seen;
    SeenAtMost(vRandom);
    SameSize(m.Keys, seen);
    forall p | 0 <= p < |vRandom| ensures vRandom[p] in m && m[vRandom[p]].nRandomPos == p {
      assert vRandom[p] in seen && vRandom[p] in m.Keys;
      if m[vRandom[p]].nRandomPos != p { TwiceSeen(vRandom, p, m[vRandom[p]].nRandomPos); }
    }
  }

  lemma {:induction false} SeenAtMost(s: seq<nat>)
    ensures |Members(s)| <= |s|
  {
    if s != [] {
      var n := |s| - 1;
      SeenAtMost(s[..n]);
      assert s == s[..n] + [s[n]];
      assert Members(s) == Members(s[..n]) + {s[n]};
    }
  }

  lemma SameSize(a: set<nat>, b: set<nat>)
    requires a <= b && |b| <= |a|
    ensures a == b
  {
    assert b == a + (b - a);
    assert |b - a| == 0;
  }

  lemma TwiceSeen(s: seq<nat>, p: nat, q: nat)
    requires p < |s| && q < |s| && p != q && s[p] == s[q]
    ensures |Members(s)| < |s|
  {
    var t := s[..p] + s[p + 1..];
    SeenAtMost(t);
    forall x | x in s ensures x in t {
      var i :| 0 <= i < |s| && s[i] == x;
      var j := if i == p then q else i;
      assert s[j] == x && t[if j < p then j else j - 1] == x;
    }
    assert Members(s) == Members(t);
  }

  lemma TwoKinds(m: InfoMap)
    ensures |m.Keys| == |NewIds(m)| + |TriedIds(m)|
  {
    assert m.Keys == NewIds(m) + TriedIds(m);
  }

  /** Every id of a tried bucket is an entry whose service belongs there. */
  ghost predicate Placed(h: Hasher, m: InfoMap, vvTried: seq<seq<nat>>) {
    && |vvTried| == ADDRMAN_TRIED_BUCKET_COUNT
    && forall k, id :: 0 <= k < |vvTried| && id in vvTried[k] ==> id in m && h.TriedBucket(m[id].svc) == k
  }

  lemma {:induction false} PlacedBag(h: Hasher, m: InfoMap, vvTried: seq<seq<nat>>, n: nat, id: nat)
    requires Placed(h, m, vvTried) && n <= |vvTried|
    ensures TriedBag(vvTried, n)[id] ==
      if id in m && h.TriedBucket(m[id].svc) < n then multiset(vvTried[h.TriedBucket(m[id].svc)])[id] else 0
  {
    if n > 0 {
      PlacedBag(h, m, vvTried, n - 1, id);
      if id in multiset(vvTried[n - 1]) { assert id in vvTried[n - 1]; }
    }
  }

  ghost function OwnBucket(h: Hasher, m: InfoMap, vvTried: seq<seq<nat>>, id: nat): nat
    requires |vvTried| == ADDRMAN_TRIED_BUCKET_COUNT
  {
    if id in m then multiset(vvTried[h.TriedBucket(m[id].svc)])[id] else 0
  }

  /** The occurrences of an id are those in the bucket of its service. */
  lemma PlacedBags(h: Hasher, m: InfoMap, vvTried: seq<seq<nat>>)
    requires Placed(h, m, vvTried)
    ensures forall id :: TriedBag(vvTried, |vvTried|)[id] == OwnBucket(h, m, vvTried, id)
  {
    forall id ensures TriedBag(vvTried, |vvTried|)[id] == OwnBucket(h, m, vvTried, id) {
      PlacedBag(h, m, vvTried, |vvTried|, id);
    }
  }

  lemma TriedGivesBag(h: Hasher, m: InfoMap, vvTried: seq<seq<nat>>)
    requires Placed(h, m, vvTried) && TriedOk(h, m, vvTried)
    ensures TriedBag(vvTried, |vvTried|) == multiset(TriedIds(m))
  {
    PlacedBags(h, m, vvTried);
    hide TriedBag;
    forall id ensures TriedBag(vvTried, |vvTried|)[id] == multiset(TriedIds(m))[id] {
      if id in m { DistinctBag(vvTried[h.TriedBucket(m[id].svc)]); }
    }
  }

  lemma BagGivesTried(h: Hasher, m: InfoMap, vvTried: seq<seq<nat>>)
    requires Placed(h, m, vvTried) && TriedBag(vvTried, |vvTried|) == multiset(TriedIds(m))
    ensures TriedOk(h, m, vvTried)
  {
    PlacedBags(h, m, vvTried);
    hide TriedBag;
    var bag := TriedBag(vvTried, |vvTried|);
    forall k | 0 <= k < |vvTried| ensures NoDuplicates(vvTried[k]) {
      forall x ensures multiset(vvTried[k])[x] <= 1 {
        if x in vvTried[k] { assert bag[x] <= 1; }
      }
      DistinctBag(vvTried[k]);
    }
    hide NoDuplicates;
    forall k, id | 0 <= k < |vvTried| && id in vvTried[k] ensures m[id].fInTried {
      assert id in multiset(vvTried[k]) && bag[id] > 0;
    }
    forall id | id in m && m[id].fInTried ensures id in vvTried[h.TriedBucket(m[id].svc)] {
      assert bag[id] == 1;
    }
  }

  /** Every address of an entry is indexed, and every index entry is such an address. */
  ghost predicate Indexed(m: InfoMap, mapAddr: map<NetAddr, nat>) {
    && (forall id :: id in m ==> m[id].svc.ip in mapAddr)
    && forall ip :: ip in mapAddr ==> mapAddr[ip] in m && m[mapAddr[ip]].svc.ip == ip
  }

  lemma NewAgree(m: InfoMap, vvNew: seq<set<nat>>)
    requires |vvNew| == ADDRMAN_NEW_BUCKET_COUNT
    ensures NewOk(m, vvNew, -1, -1) <==>
      && (forall id :: NewBag(vvNew, |vvNew|)[id] == RefsOf(m, id))
      && forall id :: id in m ==>
           if m[id].fInTried then m[id].nRefCount == 0 else 1 <= m[id].nRefCount <= ADDRMAN_NEW_BUCKETS_PER_ADDRESS
  {
    forall id ensures NewBag(vvNew, |vvNew|)[id] == |BucketsOf(vvNew, id)| { AllBuckets(vvNew, id); }
    if NewOk(m, vvNew, -1, -1) {
      forall id ensures NewBag(vvNew, |vvNew|)[id] == RefsOf(m, id) {
        if id in m { assert RefOk(m, vvNew, id, -1, -1); }
        else { assert BucketsOf(vvNew, id) == {}; }
      }
      forall id | id in m ensures if m[id].fInTried then m[id].nRefCount == 0
        else 1 <= m[id].nRefCount <= ADDRMAN_NEW_BUCKETS_PER_ADDRESS
      {
        assert RefOk(m, vvNew, id, -1, -1);
      }
    } else if forall id :: NewBag(vvNew, |vvNew|)[id] == RefsOf(m, id) {
      forall b, id | 0 <= b < |vvNew| && id in vvNew[b] ensures id in m {
        assert b in BucketsOf(vvNew, id);
      }
    }
  }

  /** On tables whose addresses are indexed and whose tried entries are in the right buckets, Check_ accepts
      exactly the tables of the invariant; it would not notice an address or a bucket that is wrong. */
  lemma CheckIsInvariant(h: Hasher, m: InfoMap, nIdCount: nat, mapAddr: map<NetAddr, nat>, vRandom: seq<nat>,
                         vvNew: seq<set<nat>>, vvTried: seq<seq<nat>>, nNew: int, nTried: int)
    requires IdsOk(m, nIdCount) && Indexed(m, mapAddr) && Placed(h, m, vvTried)
    requires |vvNew| == ADDRMAN_NEW_BUCKET_COUNT
    ensures Checked(m, mapAddr, vRandom, vvNew, vvTried, nNew, nTried) <==>
      && AddrOk(m, mapAddr) && RandomOk(m, vRandom) && NewOk(m, vvNew, -1, -1) && TriedOk(h, m, vvTried)
      && CountsOk(m, nNew, nTried, -1) && TimesOk(m)
  {
    NewAgree(m, vvNew);
    TwoKinds(m);
    assert Settled(m, -1) == NewIds(m);
    hide NewOk, TriedOk, Placed, NewBag, TriedBag, RefsOf, Settled;
    if Checked(m, mapAddr, vRandom, vvNew, vvTried, nNew, nTried) {
      BagGivesTried(h, m, vvTried);
      forall id | id in m ensures EntryChecked(m, mapAddr, vRandom, id) {}
      RandomFull(m, vRandom);
    }
    if AddrOk(m, mapAddr) && RandomOk(m, vRandom) && NewOk(m, vvNew, -1, -1) && TriedOk(h, m, vvTried)
      && CountsOk(m, nNew, nTried, -1) && TimesOk(m)
    {
      TriedGivesBag(h, m, vvTried);
      RandomLength(m, vRandom);
      forall id | id in m ensures EntryChecked(m, mapAddr, vRandom, id) {}
    }
  }
}
