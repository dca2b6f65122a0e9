/** The active chain as a vector of block tree entries (src/main.h, src/main.cpp: CChain). */
module ChainIndex {
  import opened Core
  import opened Blocks
  import opened Arith

  /** The path from genesis to an entry. */
  function Ancestors(b: BlockIndex): (s: seq<BlockIndex>)
    requires b.Valid()
    ensures |s| == b.nHeight + 1 && s[b.nHeight] == b
    decreases b.nHeight
  {
    match b.pprev
    case None => [b]
    case Some(p) => Ancestors(p) + [b]
  }

  /** The entry of the path at a height has that height, and the path to it is the path so far. */
  lemma {:induction false} AncestorAt(b: BlockIndex, h: nat)
    requires b.Valid() && h <= b.nHeight
    ensures Ancestors(b)[h].Valid() && Ancestors(b)[h].nHeight == h
    ensures Ancestors(Ancestors(b)[h]) == Ancestors(b)[..h + 1]
    decreases b.nHeight
  {
    if h < b.nHeight {
      AncestorAt(b.pprev.value, h);
      assert Ancestors(b)[..h + 1] == Ancestors(b.pprev.value)[..h + 1];
    }
  }

  /** The parent of a path entry is the entry before it. */
  lemma AncestorParent(b: BlockIndex, h: nat)
    requires b.Valid() && h <= b.nHeight
    ensures Ancestors(b)[h].pprev == if h == 0 then None else Some(Ancestors(b)[h - 1])
  {
    AncestorAt(b, h);
    var a := Ancestors(b)[h];
    if h > 0 {
      assert a.pprev.Some? && Ancestors(a)[h - 1] == a.pprev.value;
    }
  }

  /** a is on the path to b (possibly b itself). */
  ghost predicate IsAncestor(a: BlockIndex, b: BlockIndex)
    requires b.Valid()
  {
    a.Valid() && a.nHeight <= b.nHeight && Ancestors(b)[a.nHeight] == a
  }

  /** Two paths that meet at a height agree below it. */
  lemma PathsAgreeBelow(a: BlockIndex, b: BlockIndex, h: nat)
    requires a.Valid() && b.Valid() && h <= a.nHeight && h <= b.nHeight
    requires Ancestors(a)[h] == Ancestors(b)[h]
    ensures Ancestors(a)[..h + 1] == Ancestors(b)[..h + 1]
  {
    AncestorAt(a, h);
    AncestorAt(b, h);
  }

  lemma PathHeights(b: BlockIndex)
    requires b.Valid()
    ensures forall h :: 0 <= h <= b.nHeight ==> Ancestors(b)[h].Valid() && Ancestors(b)[h].nHeight == h
  {
    forall h | 0 <= h <= b.nHeight ensures Ancestors(b)[h].Valid() && Ancestors(b)[h].nHeight == h {
      AncestorAt(b, h);
    }
  }

  /** A vector holding one path and meeting another at a height holds the other below it. */
  lemma KeptBelow(v: seq<Option<BlockIndex>>, a: BlockIndex, b: BlockIndex, h: nat)
    requires a.Valid() && b.Valid() && h < |v| == |Ancestors(a)| && h <= b.nHeight
    requires forall k :: 0 <= k < |v| ==> v[k] == Some(Ancestors(a)[k])
    requires v[h] == Some(Ancestors(b)[h])
    ensures forall k :: 0 <= k <= h ==> v[k] == Some(Ancestors(b)[k])
  {
    PathsAgreeBelow(a, b, h);
    forall k | 0 <= k <= h ensures v[k] == Some(Ancestors(b)[k]) {
      assert Ancestors(a)[..h + 1][k] == Ancestors(b)[..h + 1][k];
    }
  }

  /** What makes a list of entries a locator for b: it starts at b, its heights fall strictly, it ends at
      genesis, and all of it is on b's path. */
  ghost predicate LocatorFor(s: seq<BlockIndex>, b: BlockIndex)
    requires b.Valid()
  {
    && s != []
    && s[0] == b
    && s[|s| - 1].nHeight == 0
    && (forall i :: 0 <= i < |s| ==> IsAncestor(s[i], b))
    && (forall i, j :: 0 <= i < j < |s| ==> s[i].nHeight > s[j].nHeight)
  }

  function Hashes(s: seq<BlockIndex>): seq<Uint256> {
    seq(|s|, i requires 0 <= i < |s| => s[i].block.hash)
  }

  /** A locator under construction: all of it on b's path, heights falling and above h. */
  ghost predicate LocatorPrefix(s: seq<BlockIndex>, b: BlockIndex, h: nat)
    requires b.Valid()
  {
    && (forall i :: 0 <= i < |s| ==> IsAncestor(s[i], b) && s[i].nHeight > h)
    && (forall i, j :: 0 <= i < j < |s| ==> s[i].nHeight > s[j].nHeight)
  }

  /** How far below its start a locator has come after n entries, unless it is at genesis. */
  function Dropped(n: nat): nat {
    if n <= 11 then n else 9 + Pow2(n - 10)
  }

  lemma PrefixStart(b: BlockIndex)
    requires b.Valid()
    ensures IsAncestor(b, b) && LocatorPrefix([], b, b.nHeight)
  {
  }

  lemma PrefixNext(s: seq<BlockIndex>, b: BlockIndex, here: BlockIndex, h: nat)
    requires b.Valid() && LocatorPrefix(s, b, here.nHeight) && IsAncestor(here, b)
    ensures h < here.nHeight ==> LocatorPrefix(s + [here], b, h)
    ensures here.nHeight == 0 && (s + [here])[0] == b ==> LocatorFor(s + [here], b)
  {
  }

  /** A vector that holds the whole path to an entry. */
  ghost predicate HoldsPath(v: seq<Option<BlockIndex>>, b: BlockIndex)
    requires b.Valid()
  {
    |v| == b.nHeight + 1 && forall h :: 0 <= h < |v| ==> v[h] == Some(Ancestors(b)[h])
  }

  /** From the fork up, the path to the tip is written into v; the fork, if any, was right already. */
  ghost predicate Rewritten(v: seq<Option<BlockIndex>>, v': seq<Option<BlockIndex>>, tip: BlockIndex,
                            fork: Option<BlockIndex>)
    requires tip.Valid() && |v| == |v'| == tip.nHeight + 1
  {
    && (fork.Some? ==>
          && fork.value.nHeight <= tip.nHeight && fork.value == Ancestors(tip)[fork.value.nHeight]
          && v[fork.value.nHeight] == fork)
    && (forall h :: (if fork.None? then 0 else fork.value.nHeight + 1) <= h <= tip.nHeight ==>
          v'[h] == Some(Ancestors(tip)[h]) != v[h])
    && (forall h :: 0 <= h <= tip.nHeight && fork.Some? && h <= fork.value.nHeight ==> v'[h] == v[h])
  }

  /** The vector cut or filled up to the length of a path. */
  function Fitted(v: seq<Option<BlockIndex>>, n: nat): (r: seq<Option<BlockIndex>>)
    ensures |r| == n && forall h :: 0 <= h < n ==> r[h] == if h < |v| then v[h] else None
  {
    if |v| >= n then v[..n] else v + seq(n - |v|, _ => None)
  }

  /** What was in the vector: nothing, or the path to its last entry. */
  ghost predicate WasPath(was: seq<Option<BlockIndex>>) {
    was == [] || (was[|was| - 1].Some? && was[|was| - 1].value.Valid() && HoldsPath(was, was[|was| - 1].value))
  }

  lemma RewrittenWhole(was: seq<Option<BlockIndex>>, now: seq<Option<BlockIndex>>, tip: BlockIndex,
                       fork: Option<BlockIndex>)
    requires tip.Valid() && WasPath(was) && |now| == tip.nHeight + 1
    requires Rewritten(Fitted(was, tip.nHeight + 1), now, tip, fork)
    ensures HoldsPath(now, tip)
  {
    hide Ancestors;
    if fork.Some? {
      KeptBelow(was, was[|was| - 1].value, tip, fork.value.nHeight);
    }
  }

  /** The fork is on both paths, and nothing above it on the new one was on the old. */
  lemma RewrittenFork(was: seq<Option<BlockIndex>>, now: seq<Option<BlockIndex>>, tip: BlockIndex,
                      fork: Option<BlockIndex>)
    requires tip.Valid() && |now| == tip.nHeight + 1 && Rewritten(Fitted(was, tip.nHeight + 1), now, tip, fork)
    ensures fork.Some? ==> IsAncestor(fork.value, tip) && fork.value.nHeight < |was| && was[fork.value.nHeight] == fork
    ensures forall h :: (if fork.None? then 0 else fork.value.nHeight + 1) <= h <= tip.nHeight && h < |was| ==>
      was[h] != Some(Ancestors(tip)[h])
  {
    PathHeights(tip);
    hide Ancestors;
  }

  /** How far the locator steps back after its i-th entry, counted from 0. */
  function StepAfter(i: nat): nat {
    if i <= 10 then 1 else Pow2(i - 10)
  }

  function Below(nHeight: nat, i: nat): nat {
    if nHeight > StepAfter(i) then nHeight - StepAfter(i) else 0
  }

  ghost predicate Spaced(entries: seq<BlockIndex>) {
    forall i :: 0 <= i < |entries| - 1 ==> entries[i + 1].nHeight == Below(entries[i].nHeight, i)
  }

  /** Heights in closed form. */
  lemma {:induction false} SpacedHeights(entries: seq<BlockIndex>, i: nat)
    requires Spaced(entries) && i < |entries|
    ensures entries[i].nHeight == if entries[0].nHeight > Dropped(i) then entries[0].nHeight - Dropped(i) else 0
  {
    if i > 0 {
      SpacedHeights(entries, i - 1);
      assert entries[i - 1 + 1].nHeight == Below(entries[i - 1].nHeight, i - 1);
      if i > 11 { assert Pow2(i - 10) == 2 * Pow2(i - 11); }
    }
  }

  /** The first entry at or below a height is no further below it than that height is below the start. */
  lemma LocatorNear(entries: seq<BlockIndex>, b: BlockIndex, f: nat, i: nat)
    requires b.Valid() && LocatorFor(entries, b) && Spaced(entries) && f <= b.nHeight
    requires i < |entries| && entries[i].nHeight <= f && (i > 0 ==> entries[i - 1].nHeight > f)
    ensures f - entries[i].nHeight <= b.nHeight - f
  {
    hide LocatorFor;
    LocatorStart(entries, b);
    SpacedHeights(entries, i);
    if i > 0 {
      SpacedHeights(entries, i - 1);
      if i > 11 { assert Pow2(i - 10) == 2 * Pow2(i - 11); }
    }
  }

  lemma LocatorStart(entries: seq<BlockIndex>, b: BlockIndex)
    requires b.Valid() && LocatorFor(entries, b)
    ensures entries != [] && entries[0] == b && entries[|entries| - 1].nHeight == 0
  {
  }

  lemma FirstAtOrBelow(entries: seq<BlockIndex>, f: nat) returns (i: nat)
    requires entries != [] && entries[|entries| - 1].nHeight == 0
    ensures i < |entries| && entries[i].nHeight <= f && (i > 0 ==> entries[i - 1].nHeight > f)
  {
    i := 0;
    while entries[i].nHeight > f
      invariant i < |entries| && (i > 0 ==> entries[i - 1].nHeight > f)
      decreases |entries| - i
    {
      i := i + 1;
    }
  }

  class CChain {
    var vChain: seq<Option<BlockIndex>>

    /** Empty, or the whole path to some entry. */
    ghost predicate Valid()
      reads this
    {
      vChain == [] || (Tip().Some? && Tip().value.Valid() && IsPath(Tip().value))
    }

    ghost predicate IsPath(tip: BlockIndex)
      requires tip.Valid()
      reads this
    {
      HoldsPath(vChain, tip)
    }

    constructor ()
      ensures Valid() && vChain == []
    {
      vChain := [];
    }

    function Genesis(): Option<BlockIndex>
      reads this
    {
      if |vChain| > 0 then vChain[0] else None
    }

    function Tip(): Option<BlockIndex>
      reads this
    {
      if |vChain| > 0 then vChain[|vChain| - 1] else None
    }

    function At(nHeight: int): Option<BlockIndex>
      reads this
    {
      if nHeight < 0 || nHeight >= |vChain| then None else vChain[nHeight]
    }

    predicate Contains(b: BlockIndex)
      reads this
    {
      At(b.nHeight) == Some(b)
    }

    /** On a whole path, the height test decides membership. */
    lemma ContainsIsAncestor(b: BlockIndex)
      requires Valid() && b.Valid()
      ensures Contains(b) <==> Tip().Some? && IsAncestor(b, Tip().value)
    {
    }

    /** The loop of SetTip: from the top of a vector of the right length, write the path down to the first
        entry that is already right. */
    method WritePath(tip: BlockIndex) returns (fork: Option<BlockIndex>)
      requires tip.Valid() && |vChain| == tip.nHeight + 1
      modifies this
      ensures |vChain| == tip.nHeight + 1 && Rewritten(old(vChain), vChain, tip, fork)
    {
      ghost var path := Ancestors(tip);
      PathHeights(tip);
      hide Ancestors;
      var pindex := Some(tip);
      while pindex.Some? && vChain[pindex.value.nHeight] != pindex
        invariant |vChain| == tip.nHeight + 1
        invariant pindex.Some? ==> pindex.value.nHeight <= tip.nHeight && pindex.value == path[pindex.value.nHeight]
        invariant forall h :: (if pindex.None? then 0 else pindex.value.nHeight + 1) <= h <= tip.nHeight ==>
          vChain[h] == Some(path[h]) != old(vChain)[h]
        invariant forall h :: 0 <= h <= tip.nHeight && pindex.Some? && h <= pindex.value.nHeight ==>
          vChain[h] == old(vChain)[h]
        decreases if pindex.None? then 0 else pindex.value.nHeight + 1
      {
        var b := pindex.value;
        AncestorParent(tip, b.nHeight);
        vChain := vChain[b.nHeight := pindex];
        pindex := b.pprev;
      }
      fork := pindex;
    }

    /** Make a given entry the tip, rewriting entries from the top until one is already right; the
        fork point is returned. Whatever was there before, the whole path to the new tip results. */
    method SetTip(tip: Option<BlockIndex>) returns (fork: Option<BlockIndex>)
      requires Valid() && (tip.Some? ==> tip.value.Valid())
      modifies this
      ensures Valid() && Tip() == tip
      ensures tip.None? ==> fork == None
      ensures tip.Some? ==>
        forall b :: fork == Some(b) ==> IsAncestor(b, tip.value) && old(Contains(b))
      ensures tip.Some? ==>
        forall h :: (if fork.None? then 0 else fork.value.nHeight + 1) <= h <= tip.value.nHeight ==>
          !old(Contains(Ancestors(tip.value)[h]))
    {
      if tip.None? {
        vChain := [];
        return None;
      }
      ghost var was := vChain;
      vChain := Fitted(vChain, tip.value.nHeight + 1);
      fork := WritePath(tip.value);
      RewrittenWhole(was, vChain, tip.value, fork);
      RewrittenFork(was, vChain, tip.value, fork);
      PathHeights(tip.value);
      hide Rewritten, Ancestors, IsAncestor;
    }

    /** From an entry back to one at a given lower height: parents until the chain is met, then directly. */
    method StepBack(from: BlockIndex, nHeight: nat, ghost b: BlockIndex) returns (pindex: Option<BlockIndex>)
      requires Valid() && b.Valid() && IsAncestor(from, b) && nHeight < from.nHeight
      ensures pindex.Some? && IsAncestor(pindex.value, b) && pindex.value.nHeight == nHeight
    {
      pindex := Some(from);
      while pindex.value.nHeight > nHeight && !Contains(pindex.value)
        invariant pindex.Some? && IsAncestor(pindex.value, b) && pindex.value.nHeight >= nHeight
        decreases pindex.value.nHeight
      {
        AncestorParent(b, pindex.value.nHeight);
        AncestorAt(b, pindex.value.nHeight - 1);
        pindex := pindex.value.pprev;
      }
      if pindex.value.nHeight > nHeight {
        KeptBelow(vChain, Tip().value, b, pindex.value.nHeight);
        AncestorAt(b, nHeight);
        pindex := At(nHeight);
      }
    }

    /** Block hashes from an entry (the tip by default) back to genesis, in steps that double after the
        first ten; entries are the blocks they name. */
    method GetLocator(from: Option<BlockIndex>) returns (vHave: seq<Uint256>, ghost entries: seq<BlockIndex>)
      requires Valid() && (from.Some? ==> from.value.Valid())
      ensures vHave == Hashes(entries)
      ensures from.None? && Tip().None? ==> vHave == []
      ensures var start := if from.Some? then from else Tip();
        start.Some? ==>
          && LocatorFor(entries, start.value) && Spaced(entries)
          && (|vHave| <= 12 || Pow2(|vHave| - 12) < start.value.nHeight)
    {
      hide Ancestors, LocatorPrefix, LocatorFor, IsAncestor;
      var nStep := 1;
      vHave, entries := [], [];
      var pindex := if from.Some? then from else Tip();
      if pindex.None? { return; }
      ghost var b := pindex.value;
      PrefixStart(b);
      while true
        invariant pindex.Some? && IsAncestor(pindex.value, b)
        invariant vHave == Hashes(entries)
        invariant |entries| == 0 ==> pindex.value == b
        invariant |entries| > 0 ==> entries[0] == b
        invariant LocatorPrefix(entries, b, pindex.value.nHeight)
        invariant nStep == StepAfter(|entries|)
        invariant Spaced(entries)
        invariant |entries| > 0 ==> pindex.value.nHeight == Below(entries[|entries| - 1].nHeight, |entries| - 1)
        invariant pindex.value.nHeight == 0 || pindex.value.nHeight + Dropped(|entries|) <= b.nHeight
        invariant |entries| >= 12 ==> Pow2(|entries| - 11) < b.nHeight
        decreases pindex.value.nHeight
      {
        var here := pindex.value;
        var nHeight := if here.nHeight > nStep then here.nHeight - nStep else 0;
        PrefixNext(entries, b, here, nHeight);
        vHave := vHave + [here.block.hash];
        entries := entries + [here];
        if here.nHeight == 0 { break; }
        pindex := StepBack(here, nHeight, b);
        if |vHave| > 10 {
          nStep := nStep * 2;
        }
      }
    }

    /** The first locator entry whose block is known and on this chain; genesis if there is none. */
    method FindFork(locator: seq<Uint256>, mapBlockIndex: map<Uint256, BlockIndex>)
      returns (fork: Option<BlockIndex>)
      ensures FirstOnChain(locator, mapBlockIndex, fork)
    {
      for i := 0 to |locator|
        invariant forall j :: 0 <= j < i ==> !OnThisChain(locator[j], mapBlockIndex)
      {
        var hash := locator[i];
        if hash in mapBlockIndex {
          var pindex := mapBlockIndex[hash];
          if Contains(pindex) {
            assert OnThisChain(locator[i], mapBlockIndex);
            return Some(pindex);
          }
        }
      }
      return Genesis();
    }

    predicate OnThisChain(hash: Uint256, mapBlockIndex: map<Uint256, BlockIndex>)
      reads this
    {
      hash in mapBlockIndex && Contains(mapBlockIndex[hash])
    }

    ghost predicate FirstOnChain(locator: seq<Uint256>, mapBlockIndex: map<Uint256, BlockIndex>,
                                 fork: Option<BlockIndex>)
      reads this
    {
      || (fork == Genesis() && forall j :: 0 <= j < |locator| ==> !OnThisChain(locator[j], mapBlockIndex))
      || exists i :: 0 <= i < |locator|
           && OnThisChain(locator[i], mapBlockIndex)
           && fork == Some(mapBlockIndex[locator[i]])
           && forall j :: 0 <= j < i ==> !OnThisChain(locator[j], mapBlockIndex)
    }

    /** The fork found on a full locator is at most as far below any block common to both branches as that block is
        below the locator's start. */
    lemma ForkIsNear(b: BlockIndex, entries: seq<BlockIndex>, mapBlockIndex: map<Uint256, BlockIndex>,
                     fork: Option<BlockIndex>, c: BlockIndex)
      requires Valid() && vChain != [] && b.Valid()
      requires Genesis() == Some(Ancestors(b)[0])
      requires LocatorFor(entries, b) && Spaced(entries)
      requires forall e :: e in entries ==> e.block.hash in mapBlockIndex && mapBlockIndex[e.block.hash] == e
      requires FirstOnChain(Hashes(entries), mapBlockIndex, fork)
      requires IsAncestor(c, b) && Contains(c)
      ensures fork.Some? && c.nHeight - fork.value.nHeight <= b.nHeight - c.nHeight
    {
      hide LocatorFor, FirstOnChain, Spaced;
      ForkIsCommon(b, entries, mapBlockIndex, fork);
      LocatorEnds(entries, b);
      var i := FirstAtOrBelow(entries, c.nHeight);
      LocatorNear(entries, b, c.nHeight, i);
      OnBoth(b, c, entries[i]);
      assert entries[i] in entries;
    }

    /** What is on a branch below a block common to both is on this chain. */
    lemma OnBoth(b: BlockIndex, c: BlockIndex, e: BlockIndex)
      requires Valid() && vChain != [] && b.Valid() && IsAncestor(c, b) && Contains(c) && IsAncestor(e, b)
      requires e.nHeight <= c.nHeight
      ensures Contains(e)
    {
      hide Ancestors;
      KeptBelow(vChain, Tip().value, b, c.nHeight);
    }

    static lemma LocatorEnds(entries: seq<BlockIndex>, b: BlockIndex)
      requires b.Valid() && LocatorFor(entries, b)
      ensures entries != [] && entries[|entries| - 1].nHeight == 0
      ensures forall i :: 0 <= i < |entries| ==> IsAncestor(entries[i], b)
    {
    }

    static lemma HigherFirst(entries: seq<BlockIndex>, b: BlockIndex, i: nat, j: nat)
      requires b.Valid() && LocatorFor(entries, b) && i < |entries| && j < |entries|
      requires entries[j].nHeight > entries[i].nHeight
      ensures j < i
    {
    }

    /** For a locator made anywhere in the same block tree, the fork found is a block common to both
        branches, and no higher locator entry is on this chain. */
    lemma ForkIsCommon(b: BlockIndex, entries: seq<BlockIndex>, mapBlockIndex: map<Uint256, BlockIndex>,
                       fork: Option<BlockIndex>)
      requires Valid() && vChain != [] && b.Valid()
      requires Genesis() == Some(Ancestors(b)[0])
      requires LocatorFor(entries, b)
      requires forall e :: e in entries ==> e.block.hash in mapBlockIndex && mapBlockIndex[e.block.hash] == e
      requires FirstOnChain(Hashes(entries), mapBlockIndex, fork)
      ensures fork.Some? && IsAncestor(fork.value, b) && IsAncestor(fork.value, Tip().value)
      ensures forall e :: e in entries && e.nHeight > fork.value.nHeight ==> !Contains(e)
    {
      hide Ancestors, LocatorFor;
      LocatorEnds(entries, b);
      var locator := Hashes(entries);
      forall j | 0 <= j < |entries| ensures OnThisChain(locator[j], mapBlockIndex) <==> Contains(entries[j]) {
        assert entries[j] in entries;
      }
      var last := |entries| - 1;
      assert IsAncestor(entries[last], b);
      assert Contains(entries[last]);
      assert OnThisChain(locator[last], mapBlockIndex);
      var i :| 0 <= i < |locator|
           && OnThisChain(locator[i], mapBlockIndex)
           && fork == Some(mapBlockIndex[locator[i]])
           && forall j :: 0 <= j < i ==> !OnThisChain(locator[j], mapBlockIndex);
      assert entries[i] in entries && fork.value == entries[i];
      ContainsIsAncestor(entries[i]);
      forall e | e in entries && e.nHeight > fork.value.nHeight ensures !Contains(e) {
        var j :| 0 <= j < |entries| && entries[j] == e;
        HigherFirst(entries, b, i, j);
        assert !OnThisChain(locator[j], mapBlockIndex);
      }
    }
  }
}
