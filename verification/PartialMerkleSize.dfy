/** The size of a serialized CPartialMerkleTree against the bound promised for it (src/main.h). */
module PartialMerkleSize {
  import opened Core
  import opened Arith
  import opened MerkleTree
  import opened PartialMerkle

  function FlagBytes(nBits: nat): nat {
    (nBits + 7) / 8
  }

  /** Transaction count, hashes, and flag bits packed into bytes. */
  function SerializedSize(nHashes: nat, nBits: nat): nat {
    4 + CompactSizeLength(nHashes) + 32 * nHashes + CompactSizeLength(FlagBytes(nBits)) + FlagBytes(nBits)
  }

  /** 10 + ceil(32.25 * N). */
  function PromisedSize(nHashes: nat): nat {
    10 + (129 * nHashes + 3) / 4
  }

  // ---- nodes with an only child ----

  /** A node all of whose leaves exist. */
  predicate Full(n: nat, height: nat, pos: nat) {
    (pos + 1) * Pow2(height) <= n
  }

  lemma FullChildren(n: nat, height: nat, pos: nat)
    requires height > 0
    ensures Full(n, height, pos) ==>
      HasRight(n, height, pos) && Full(n, height - 1, pos * 2) && Full(n, height - 1, pos * 2 + 1)
    ensures HasRight(n, height, pos) ==> Full(n, height - 1, pos * 2)
  {
    var d := Pow2(height - 1);
    MulTwice(pos + 1, d);
    MulSucc(pos * 2, d);
    MulSucc(pos * 2 + 1, d);
    NodeHasLeaf(n, height - 1, pos * 2 + 1);
  }

  lemma {:induction false} FullHasNone(vMatch: seq<bool>, height: nat, pos: nat)
    requires Full(|vMatch|, height, pos)
    ensures SingleChildren(vMatch, height, pos) == 0
  {
    hide Full, HasRight, NodeMatched;
    if height > 0 && NodeMatched(vMatch, height, pos) {
      FullChildren(|vMatch|, height, pos);
      FullHasNone(vMatch, height - 1, pos * 2);
      FullHasNone(vMatch, height - 1, pos * 2 + 1);
    }
  }

  /** Only the last node of each level can have an only child. */
  lemma {:induction false} AtMostOnePerLevel(vMatch: seq<bool>, height: nat, pos: nat)
    ensures SingleChildren(vMatch, height, pos) <= height
  {
    hide Full, HasRight, NodeMatched;
    if height > 0 && NodeMatched(vMatch, height, pos) {
      FullChildren(|vMatch|, height, pos);
      AtMostOnePerLevel(vMatch, height - 1, pos * 2);
      if HasRight(|vMatch|, height, pos) {
        FullHasNone(vMatch, height - 1, pos * 2);
        AtMostOnePerLevel(vMatch, height - 1, pos * 2 + 1);
      }
    }
  }

  lemma SmallPowers()
    ensures Pow2(4) == 16 && Pow2(8) == 256 && Pow2(10) == 1024 && Pow2(11) == 2048 && Pow2(15) == 32768
  {
    assert Pow2(4) == 2 * Pow2(3) == 4 * Pow2(2) == 8 * Pow2(1);
    assert Pow2(8) == 2 * Pow2(7) == 4 * Pow2(6) == 8 * Pow2(5);
    assert Pow2(11) == 2 * Pow2(10) == 4 * Pow2(9) == 8 * Pow2(8);
    assert Pow2(15) == 2 * Pow2(14) == 4 * Pow2(13) == 8 * Pow2(12);
  }

  /** No block has a tree higher than 15. */
  lemma HeightBound(n: nat)
    requires n <= MAX_BLOCK_SIZE / 60
    ensures TreeHeight(n) <= 15
  {
    SmallPowers();
    WidthOne(n, 15);
  }

  lemma WidthOne(n: nat, height: nat)
    requires n <= Pow2(height)
    ensures CalcTreeWidth(n, height) <= 1
  {
    DivBounds(n + Pow2(height) - 1, Pow2(height));
    var q := CalcTreeWidth(n, height);
    if q >= 2 { MulMono(2, q, Pow2(height)); }
  }

  // ---- the bound ----

  /** The arithmetic: N hashes and 2 * N - 1 + s bits. */
  lemma BoundExactly(nHashes: nat, s: nat)
    requires 0 < nHashes <= MAX_BLOCK_SIZE / 60 && s <= 15
    ensures var nBits := 2 * nHashes - 1 + s;
      SerializedSize(nHashes, nBits) <= PromisedSize(nHashes) <==>
      FlagBytes(nBits) < 253 || (2 * nHashes + 6) % 8 + s < 8
  {
    assert (129 * nHashes + 3) / 4 == 32 * nHashes + (nHashes + 3) / 4;
    assert (2 * nHashes + 6) / 8 == (nHashes + 3) / 4;
  }

  /** A partial tree for a block keeps to the promised size exactly when its flag bits fill fewer than 253 bytes, or
      the nodes with an only child that are descended into still fit into the last byte. */
  lemma SizeBound(hash: HashFn, txids: seq<Uint256>, vMatch: seq<bool>)
    requires 0 < |txids| == |vMatch| <= MAX_BLOCK_SIZE / 60
    ensures var height := TreeHeight(|txids|);
      && IsNode(|txids|, height, 0)
      && var nHashes, nBits := |BuildHashes(hash, txids, vMatch, height, 0)|, |BuildBits(vMatch, height, 0)|;
      (SerializedSize(nHashes, nBits) <= PromisedSize(nHashes) <==>
        FlagBytes(nBits) < 253 || (2 * nHashes + 6) % 8 + SingleChildren(vMatch, height, 0) < 8)
  {
    hide CalcTreeWidth, BuildHashes, BuildBits, SingleChildren, SerializedSize, PromisedSize, FlagBytes;
    var n := |txids|;
    var height := TreeHeight(n);
    RootNode(n);
    RootRange(n);
    HeightBound(n);
    AtMostOnePerLevel(vMatch, height, 0);
    BuiltSizes(hash, txids, vMatch, height, 0);
    BitCount(hash, txids, vMatch, height, 0);
    BoundExactly(|BuildHashes(hash, txids, vMatch, height, 0)|, SingleChildren(vMatch, height, 0));
  }

  lemma RootNode(n: nat)
    requires n > 0
    ensures IsNode(n, TreeHeight(n), 0)
  {
    RootIsSingle(n);
  }

  // ---- a block on which it fails ----

  ghost predicate AllMatched(vMatch: seq<bool>) {
    forall p :: 0 <= p < |vMatch| ==> vMatch[p]
  }

  lemma AllNodesMatched(vMatch: seq<bool>, height: nat, pos: nat)
    requires AllMatched(vMatch) && IsNode(|vMatch|, height, pos)
    ensures NodeMatched(vMatch, height, pos)
  {
    NodeHasLeaf(|vMatch|, height, pos);
    Positive(height, pos);
    assert vMatch[Lo(height, pos)];
  }

  lemma Positive(height: nat, pos: nat)
    ensures (pos + 1) * Pow2(height) > pos * Pow2(height)
  {
    MulSucc(pos, Pow2(height));
  }

  /** With everything matched every leaf's hash is sent. */
  lemma {:induction false} EveryHash(hash: HashFn, txids: seq<Uint256>, vMatch: seq<bool>, height: nat, pos: nat)
    requires |txids| == |vMatch| && AllMatched(vMatch) && IsNode(|txids|, height, pos)
    ensures |BuildHashes(hash, txids, vMatch, height, pos)| == LeafCount(|txids|, height, pos)
    decreases height
  {
    hide NodeMatched, CalcTreeWidth, CalcHash, HasRight, AllMatched;
    if height == 0 {
      LeafRange(|txids|, pos);
    } else {
      AllNodesMatched(vMatch, height, pos);
      ChildRanges(|txids|, height, pos);
      EveryHash(hash, txids, vMatch, height - 1, pos * 2);
      if HasRight(|txids|, height, pos) { EveryHash(hash, txids, vMatch, height - 1, pos * 2 + 1); }
    }
  }

  /** Above a last leaf that stands alone every node has an only child. */
  lemma {:induction false} Chain(vMatch: seq<bool>, height: nat, pos: nat)
    requires AllMatched(vMatch) && Lo(height, pos) + 1 == |vMatch|
    ensures SingleChildren(vMatch, height, pos) == height
  {
    if height > 0 {
      var d := Pow2(height - 1);
      NodeHasLeaf(|vMatch|, height, pos);
      AllNodesMatched(vMatch, height, pos);
      NodeHasLeaf(|vMatch|, height - 1, pos * 2 + 1);
      MulTwice(pos, d);
      MulSucc(pos * 2, d);
      hide NodeMatched, CalcTreeWidth;
      Chain(vMatch, height - 1, pos * 2);
    }
  }

  lemma HeightOf1025()
    ensures TreeHeight(1025) == 11
  {
    SmallPowers();
    WidthOne(1025, 11);
    var d := Pow2(10);
    assert CalcTreeWidth(1025, 10) == 2 by { DivIs(1025 + d - 1, d, 2); }
    HigherIsNarrower(1025, 0, 10);
    assert forall k :: 0 <= k < TreeHeight(1025) ==> CalcTreeWidth(1025, k) > 1;
    if TreeHeight(1025) <= 10 { HigherIsNarrower(1025, TreeHeight(1025), 10); }
  }

  lemma {:induction false} HigherIsNarrower(n: nat, low: nat, high: nat)
    requires low <= high
    ensures CalcTreeWidth(n, high) <= CalcTreeWidth(n, low)
    decreases high - low
  {
    if low < high {
      WidthStep(n, low);
      HigherIsNarrower(n, low + 1, high);
    }
  }

  /** A block of 1025 transactions, all matched: 1025 hashes, 2059 bits, a byte more than promised. */
  lemma SizeBoundFails(hash: HashFn, txids: seq<Uint256>, vMatch: seq<bool>)
    requires |txids| == |vMatch| == 1025 && AllMatched(vMatch)
    ensures TreeHeight(1025) == 11 && IsNode(1025, 11, 0)
    ensures var nHashes, nBits := |BuildHashes(hash, txids, vMatch, 11, 0)|, |BuildBits(vMatch, 11, 0)|;
      nHashes == 1025 && nBits == 2059 && SerializedSize(nHashes, nBits) == PromisedSize(nHashes) + 1
  {
    hide NodeMatched, CalcTreeWidth, HasRight, BuildHashes, BuildBits, AllMatched;
    HeightOf1025();
    RootNode(1025);
    RootRange(1025);
    EveryHash(hash, txids, vMatch, 11, 0);
    BitCount(hash, txids, vMatch, 11, 0);
    SmallPowers();
    AllNodesMatched(vMatch, 11, 0);
    NodeHasLeaf(1025, 10, 1);
    ChildRanges(1025, 11, 0);
    FullHasNone(vMatch, 10, 0);
    Chain(vMatch, 10, 1);
    assert SingleChildren(vMatch, 11, 0) == 10;
  }
}
