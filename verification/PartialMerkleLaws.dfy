/** What a partial merkle tree holds in the simplest cases, and that it holds nothing to spare (src/main.h; BIP 37). */
module PartialMerkleLaws {
  import opened Core
  import opened Arith
  import opened MerkleTree
  import opened PartialMerkle
  import opened PartialMerkleSize

  // ---- the merkle tree of few leaves ----

  lemma Leaf(hash: HashFn, txids: seq<Uint256>, pos: nat)
    requires pos < |txids|
    ensures IsNode(|txids|, 0, pos) && CalcHash(hash, txids, 0, pos) == txids[pos]
  {
    WidthStep(|txids|, 0);
  }

  lemma Inner(hash: HashFn, txids: seq<Uint256>, height: nat, pos: nat)
    requires height > 0 && IsNode(|txids|, height, pos)
    ensures IsNode(|txids|, height - 1, pos * 2)
    ensures CalcHash(hash, txids, height, pos) ==
      hash(CalcHash(hash, txids, height - 1, pos * 2),
           CalcHash(hash, txids, height - 1, if HasRight(|txids|, height, pos) then pos * 2 + 1 else pos * 2))
  {
    LeftIsNode(|txids|, height, pos);
  }

  /** One txid is its own root; two are hashed in order; a third is hashed with itself first. */
  lemma SmallRoots(hash: HashFn, a: Uint256, b: Uint256, c: Uint256)
    ensures Root(hash, [a]) == a
    ensures Root(hash, [a, b]) == hash(a, b)
    ensures Root(hash, [a, b, c]) == hash(hash(a, b), hash(c, c))
  {
    hide CalcTreeWidth, HeightFrom, CalcHash;
    Widths();
    SmallHeights();
    Leaf(hash, [a], 0);
    Leaf(hash, [a, b], 0);
    Leaf(hash, [a, b], 1);
    Inner(hash, [a, b], 1, 0);
    Leaf(hash, [a, b, c], 0);
    Leaf(hash, [a, b, c], 1);
    Leaf(hash, [a, b, c], 2);
    Inner(hash, [a, b, c], 1, 0);
    Inner(hash, [a, b, c], 1, 1);
    Inner(hash, [a, b, c], 2, 0);
  }

  lemma SmallHeights()
    ensures TreeHeight(1) == 0 && TreeHeight(2) == 1 && TreeHeight(3) == 2
  {
    hide CalcTreeWidth;
    Widths();
    assert HeightFrom(2, 0) == HeightFrom(2, 1) == 1;
    assert HeightFrom(3, 0) == HeightFrom(3, 1) == HeightFrom(3, 2) == 2;
  }

  lemma Widths()
    ensures CalcTreeWidth(1, 0) == 1 && CalcTreeWidth(2, 0) == 2 && CalcTreeWidth(2, 1) == 1
    ensures CalcTreeWidth(3, 0) == 3 && CalcTreeWidth(3, 1) == 2 && CalcTreeWidth(3, 2) == 1
  {
    WidthStep(1, 0);
    WidthStep(2, 0);
    WidthStep(3, 0);
    WidthStep(3, 1);
  }

  // ---- nothing matched, everything matched ----

  /** With nothing matched one clear bit and the root are sent. */
  lemma NothingMatched(hash: HashFn, txids: seq<Uint256>, vMatch: seq<bool>)
    requires 0 < |txids| == |vMatch| && forall i :: 0 <= i < |vMatch| ==> !vMatch[i]
    ensures IsNode(|txids|, TreeHeight(|txids|), 0)
    ensures BuildBits(vMatch, TreeHeight(|txids|), 0) == [false]
    ensures BuildHashes(hash, txids, vMatch, TreeHeight(|txids|), 0) == [Root(hash, txids)]
  {
    RootNode(|txids|);
    RootRange(|txids|);
    assert !NodeMatched(vMatch, TreeHeight(|txids|), 0);
  }

  /** With everything matched all bits are set and the hashes are the txids. */
  lemma {:induction false} EverythingMatched(hash: HashFn, txids: seq<Uint256>, vMatch: seq<bool>, height: nat, pos: nat)
    requires |txids| == |vMatch| && AllMatched(vMatch) && IsNode(|txids|, height, pos)
    ensures Lo(height, pos) <= Hi(|txids|, height, pos) <= |txids|
    ensures BuildHashes(hash, txids, vMatch, height, pos) == txids[Lo(height, pos)..Hi(|txids|, height, pos)]
    ensures forall i :: 0 <= i < |BuildBits(vMatch, height, pos)| ==> BuildBits(vMatch, height, pos)[i]
    decreases height
  {
    hide NodeMatched, CalcTreeWidth, HasRight, AllMatched;
    AllNodesMatched(vMatch, height, pos);
    if height == 0 {
      LeafRange(|txids|, pos);
    } else {
      ChildRanges(|txids|, height, pos);
      EverythingMatched(hash, txids, vMatch, height - 1, pos * 2);
      if HasRight(|txids|, height, pos) { EverythingMatched(hash, txids, vMatch, height - 1, pos * 2 + 1); }
    }
  }

  /** The first bit tells whether anything is matched. */
  lemma FirstBit(vMatch: seq<bool>)
    requires vMatch != []
    ensures var bits := BuildBits(vMatch, TreeHeight(|vMatch|), 0);
      bits != [] && (bits[0] <==> exists i :: 0 <= i < |vMatch| && vMatch[i])
  {
    RootRange(|vMatch|);
  }

  // ---- nothing to spare ----

  /** Limits on what extracts: 16666 transactions, no more hashes than transactions, no more hashes than bits. */
  lemma ExtractLimits(hash: HashFn, n: nat, bits: seq<bool>, hashes: seq<Uint256>)
    requires ExtractOk(hash, n, bits, hashes)
    ensures 1 <= n <= 16_666 && |hashes| <= n && |hashes| <= |bits|
  {
  }

  /** A walk that went well does not see what comes after what it used. */
  lemma {:induction false} WalkExtends(hash: HashFn, n: nat, bits: seq<bool>, hashes: seq<Uint256>, more: seq<bool>,
                                       extra: seq<Uint256>, height: nat, pos: nat, nBits: nat, nHash: nat)
    requires !Walk(hash, n, bits, hashes, height, pos, nBits, nHash).bad
    ensures Walk(hash, n, bits + more, hashes + extra, height, pos, nBits, nHash) ==
      Walk(hash, n, bits, hashes, height, pos, nBits, nHash)
    decreases height
  {
    hide CalcTreeWidth, HasRight;
    if height > 0 && bits[nBits] {
      WalkExtends(hash, n, bits, hashes, more, extra, height - 1, pos * 2, nBits + 1, nHash);
      var left := Walk(hash, n, bits, hashes, height - 1, pos * 2, nBits + 1, nHash);
      if HasRight(n, height, pos) {
        WalkExtends(hash, n, bits, hashes, more, extra, height - 1, pos * 2 + 1, left.nBits, left.nHash);
      }
    }
  }

  /** What extracts with some hashes and bits does not with more hashes, nor with another byte of bits. */
  lemma NothingToSpare(hash: HashFn, n: nat, bits: seq<bool>, hashes: seq<Uint256>, more: seq<bool>,
                       extra: seq<Uint256>)
    requires ExtractOk(hash, n, bits, hashes) && (extra != [] || |more| >= 8)
    ensures !ExtractOk(hash, n, bits + more, hashes + extra)
  {
    WalkExtends(hash, n, bits, hashes, more, extra, TreeHeight(n), 0, 0, 0);
    hide Walk;
  }
}
