/** A manager whose eviction drops a tried entry although an older one was inspected (src/addrman.cpp: SelectTried). */
module AddrCase {
  import opened AddrInfo
  import opened AddrTables

  lemma {:induction false} PickedOnce(s: seq<nat>, picks: seq<nat>, j: nat, p: nat)
    requires j <= |picks| <= |s| && j <= p < |s| && forall i :: 0 <= i < j ==> picks[i] != p
    ensures EntryAt(s, picks, j, p) == s[p]
  {
    if j > 0 { PickedOnce(s, picks, j - 1, p); }
  }

  lemma PickedFirst(s: seq<nat>, picks: seq<nat>)
    requires PicksOk(s, picks)
    requires forall i, j :: 0 <= i < j < |picks| ==> picks[i] != picks[j]
    ensures forall j :: 0 <= j < |picks| ==> Inspected(s, picks, j) == s[picks[j]]
  {
    forall j | 0 <= j < |picks| ensures Inspected(s, picks, j) == s[picks[j]] { PickedOnce(s, picks, j, picks[j]); }
  }

  // ---- a manager with one full tried bucket ----

  /** Ids 0 to 63. */
  function Ids(): (s: seq<nat>)
    ensures |s| == ADDRMAN_TRIED_BUCKET_SIZE && forall j :: 0 <= j < |s| ==> s[j] == j
  {
    seq(ADDRMAN_TRIED_BUCKET_SIZE, j => j)
  }

  /** An address for each; all succeeded at time 10, but number 1 at time 1. */
  function Entry(id: nat): Info {
    Info(Service(id, 0), {}, 1, 0, 0, if id == 1 then 1 else 10, 0, 0, true, id)
  }

  function Entries(): (m: InfoMap)
    ensures forall id: nat :: id in m <==> id < ADDRMAN_TRIED_BUCKET_SIZE
    ensures forall id :: id in m ==> m[id] == Entry(id)
  {
    assert forall id: nat :: id in Ids() <==> id < ADDRMAN_TRIED_BUCKET_SIZE by {
      forall id: nat | id < ADDRMAN_TRIED_BUCKET_SIZE ensures id in Ids() { assert Ids()[id] == id; }
    }
    map id | id in Ids() :: Entry(id)
  }

  /** Every service hashes to the first bucket. */
  function Hashes(): Hasher {
    Hasher((_, _) => 0, _ => 0)
  }

  function Tried(): (v: seq<seq<nat>>)
    ensures |v| == ADDRMAN_TRIED_BUCKET_COUNT
    ensures v[0] == Ids() && forall k :: 0 < k < |v| ==> v[k] == []
  {
    seq(ADDRMAN_TRIED_BUCKET_COUNT, k => if k == 0 then Ids() else [])
  }

  function New(): (v: seq<set<nat>>)
    ensures |v| == ADDRMAN_NEW_BUCKET_COUNT && forall b :: 0 <= b < |v| ==> v[b] == {}
  {
    seq(ADDRMAN_NEW_BUCKET_COUNT, _ => {})
  }

  lemma CaseIndexes()
    ensures IdsOk(Entries(), ADDRMAN_TRIED_BUCKET_SIZE) && RandomOk(Entries(), Ids()) && TimesOk(Entries())
    ensures AddrOk(Entries(), map ip | ip in Ids() :: ip)
  {
    forall id | id in Entries() ensures id in Ids() { assert Ids()[id] == id; }
  }

  lemma CaseTried()
    ensures TriedOk(Hashes(), Entries(), Tried()) && CapsOk(New(), Tried())
  {
    forall id | id in Entries() ensures id in Ids() { assert Ids()[id] == id; }
  }

  lemma CaseNew()
    ensures NewOk(Entries(), New(), -1, -1)
  {
    forall id ensures BucketsOf(New(), id) == {} {}
  }

  ghost function Below(n: nat): (s: set<nat>)
    ensures |s| == n && forall id: nat :: id in s <==> id < n
  {
    if n == 0 then {} else Below(n - 1) + {n - 1}
  }

  lemma CaseCounts()
    ensures CountsOk(Entries(), 0, ADDRMAN_TRIED_BUCKET_SIZE, -1)
  {
    assert Settled(Entries(), -1) == {};
    assert TriedIds(Entries()) == Below(ADDRMAN_TRIED_BUCKET_SIZE);
  }

  function Picks(): seq<nat> {
    [1, 5, 6, 7]
  }

  lemma CasePicks()
    ensures PicksOk(Ids(), Picks()) && |Picks()| == ADDRMAN_TRIED_ENTRIES_INSPECT_ON_EVICT
    ensures (forall x :: x in Ids() ==> x in Entries()) && !ReturnsOldest(Entries(), Ids(), Picks())
  {
    hide Inspected, ReturnsOldest;
    PickedFirst(Ids(), Picks());
    assert FirstOldest(Entries(), Ids(), Picks(), 0);
    ReturnedPlace(Entries(), Ids(), Picks(), 0);
  }

  /** All indexes of this manager agree and its first tried bucket is full. Of the four entries inspected in it the one
      seen first is the oldest by far, and the place returned holds another. */
  lemma RecentEvicted()
    ensures var m, s := Entries(), Tried()[0];
      && IdsOk(m, ADDRMAN_TRIED_BUCKET_SIZE) && AddrOk(m, map ip | ip in Ids() :: ip) && RandomOk(m, Ids())
      && NewOk(m, New(), -1, -1) && TriedOk(Hashes(), m, Tried()) && CountsOk(m, 0, ADDRMAN_TRIED_BUCKET_SIZE, -1)
      && CapsOk(New(), Tried()) && TimesOk(m)
      && |s| == ADDRMAN_TRIED_BUCKET_SIZE && |Picks()| == ADDRMAN_TRIED_ENTRIES_INSPECT_ON_EVICT
      && PicksOk(s, Picks()) && (forall x :: x in s ==> x in m)
      && !ReturnsOldest(m, s, Picks())
  {
    hide IdsOk, AddrOk, RandomOk, NewOk, TriedOk, CountsOk, CapsOk, TimesOk, ReturnsOldest, PicksOk;
    CaseIndexes();
    CaseTried();
    CaseNew();
    CaseCounts();
    CasePicks();
  }
}
