/** CPartialMerkleTree: the part of a merkle tree that proves a subset of its txids (src/main.h,
    src/main.cpp; BIP 37, sections "Constructing a partial merkle tree object" and "Parsing a partial merkle
    tree object"). */
module PartialMerkle {
  import opened Bits
  import opened Core
  import opened Arith
  import opened MerkleTree

  // ---- the leaves below a node ----

  function Lo(height: nat, pos: nat): nat {
    pos * Pow2(height)
  }

  function Hi(n: nat, height: nat, pos: nat): nat {
    if (pos + 1) * Pow2(height) < n then (pos + 1) * Pow2(height) else n
  }

  /** A position is a node exactly when its first leaf exists. */
  lemma NodeHasLeaf(n: nat, height: nat, pos: nat)
    ensures IsNode(n, height, pos) <==> Lo(height, pos) < n
  {
    var d := Pow2(height);
    var q := CalcTreeWidth(n, height);
    DivBounds(n + d - 1, d);
    MulSucc(q, d);
    if pos < q {
      MulMono(pos + 1, q, d);
      MulSucc(pos, d);
    } else {
      MulMono(q, pos, d);
    }
  }

  /** The leaves below a node are those below its children, left then right. */
  lemma ChildRanges(n: nat, height: nat, pos: nat)
    requires height > 0 && IsNode(n, height, pos)
    ensures IsNode(n, height - 1, pos * 2)
    ensures HasRight(n, height, pos) <==> IsNode(n, height - 1, pos * 2 + 1)
    ensures Lo(height - 1, pos * 2) == Lo(height, pos) < Hi(n, height, pos) <= n
    ensures HasRight(n, height, pos) ==>
      Hi(n, height - 1, pos * 2) == Lo(height - 1, pos * 2 + 1) < Hi(n, height - 1, pos * 2 + 1) == Hi(n, height, pos)
    ensures !HasRight(n, height, pos) ==> Hi(n, height - 1, pos * 2) == Hi(n, height, pos)
  {
    var d := Pow2(height - 1);
    LeftIsNode(n, height, pos);
    NodeHasLeaf(n, height, pos);
    NodeHasLeaf(n, height - 1, pos * 2 + 1);
    MulTwice(pos, d);
    MulTwice(pos + 1, d);
    MulSucc(pos * 2, d);
    MulSucc(pos * 2 + 1, d);
  }

  lemma MulTwice(a: nat, d: nat)
    ensures a * (2 * d) == (a * 2) * d
  {
  }

  lemma LeafRange(n: nat, pos: nat)
    requires IsNode(n, 0, pos)
    ensures Lo(0, pos) == pos < n && Hi(n, 0, pos) == pos + 1
  {
    NodeHasLeaf(n, 0, pos);
  }

  ghost predicate AnyMatch(vMatch: seq<bool>, lo: nat, hi: nat)
    requires hi <= |vMatch|
  {
    exists p :: lo <= p < hi && vMatch[p]
  }

  ghost predicate NodeMatched(vMatch: seq<bool>, height: nat, pos: nat) {
    AnyMatch(vMatch, Lo(height, pos), Hi(|vMatch|, height, pos))
  }

  /** The matched txids between two positions, in order. */
  function Matched(txids: seq<Uint256>, vMatch: seq<bool>, lo: nat, hi: nat): seq<Uint256>
    requires hi <= |txids| == |vMatch|
    decreases hi
  {
    if lo >= hi then []
    else Matched(txids, vMatch, lo, hi - 1) + if vMatch[hi - 1] then [txids[hi - 1]] else []
  }

  lemma {:induction false} MatchedSplit(txids: seq<Uint256>, vMatch: seq<bool>, lo: nat, mid: nat, hi: nat)
    requires lo <= mid <= hi <= |txids| == |vMatch|
    ensures Matched(txids, vMatch, lo, hi) == Matched(txids, vMatch, lo, mid) + Matched(txids, vMatch, mid, hi)
    decreases hi
  {
    if mid < hi { MatchedSplit(txids, vMatch, lo, mid, hi - 1); }
  }

  lemma {:induction false} NoneMatched(txids: seq<Uint256>, vMatch: seq<bool>, lo: nat, hi: nat)
    requires hi <= |txids| == |vMatch|
    ensures Matched(txids, vMatch, lo, hi) == [] <==> !AnyMatch(vMatch, lo, hi)
    decreases hi
  {
    if lo < hi {
      NoneMatched(txids, vMatch, lo, hi - 1);
      if vMatch[hi - 1] {
        assert AnyMatch(vMatch, lo, hi);
      } else {
        assert AnyMatch(vMatch, lo, hi) <==> AnyMatch(vMatch, lo, hi - 1);
      }
    }
  }

  // ---- building ----

  ghost function BuildBits(vMatch: seq<bool>, height: nat, pos: nat): seq<bool>
    decreases height
  {
    var any := NodeMatched(vMatch, height, pos);
    [any] + (
      if height == 0 || !any then []
      else BuildBits(vMatch, height - 1, pos * 2)
           + if HasRight(|vMatch|, height, pos) then BuildBits(vMatch, height - 1, pos * 2 + 1) else [])
  }

  ghost function BuildHashes(hash: HashFn, txids: seq<Uint256>, vMatch: seq<bool>, height: nat, pos: nat)
    : seq<Uint256>
    requires |txids| == |vMatch| && IsNode(|txids|, height, pos)
    decreases height
  {
    if height == 0 || !NodeMatched(vMatch, height, pos) then [CalcHash(hash, txids, height, pos)]
    else
      LeftIsNode(|txids|, height, pos);
      BuildHashes(hash, txids, vMatch, height - 1, pos * 2)
      + if HasRight(|txids|, height, pos) then BuildHashes(hash, txids, vMatch, height - 1, pos * 2 + 1) else []
  }

  // ---- extracting ----

  /** The outcome of walking part of the tree: whether an array ran out, the node's hash, how much of the
      arrays is used, and the txids found with the leaf positions they were found at. */
  datatype Walked = Walked(bad: bool, hash: Uint256, nBits: nat, nHash: nat, found: seq<Uint256>, at: seq<nat>)

  function Walk(hash: HashFn, n: nat, bits: seq<bool>, hashes: seq<Uint256>, height: nat, pos: nat,
                nBits: nat, nHash: nat): Walked
    decreases height
  {
    if nBits >= |bits| then Walked(true, 0, nBits, nHash, [], [])
    else if height == 0 || !bits[nBits] then
      if nHash >= |hashes| then Walked(true, 0, nBits + 1, nHash, [], [])
      else if height == 0 && bits[nBits] then
        Walked(false, hashes[nHash], nBits + 1, nHash + 1, [hashes[nHash]], [pos])
      else Walked(false, hashes[nHash], nBits + 1, nHash + 1, [], [])
    else
      var left := Walk(hash, n, bits, hashes, height - 1, pos * 2, nBits + 1, nHash);
      if HasRight(n, height, pos) then
        var right := Walk(hash, n, bits, hashes, height - 1, pos * 2 + 1, left.nBits, left.nHash);
        Walked(left.bad || right.bad, hash(left.hash, right.hash), right.nBits, right.nHash,
               left.found + right.found, left.at + right.at)
      else left.(hash := hash(left.hash, left.hash))
  }

  /** Everything checked before a root is returned. */
  predicate ExtractOk(hash: HashFn, n: nat, bits: seq<bool>, hashes: seq<Uint256>) {
    && 0 < n <= MAX_BLOCK_SIZE / 60
    && |hashes| <= n
    && |hashes| <= |bits|
    && var w := Walk(hash, n, bits, hashes, TreeHeight(n), 0, 0, 0);
       !w.bad && (w.nBits + 7) / 8 == (|bits| + 7) / 8 && w.nHash == |hashes|
  }

  // ---- completeness ----

  /** s occurs in t at a position. */
  predicate OccursAt<T(==)>(s: seq<T>, t: seq<T>, at: nat) {
    at + |s| <= |t| && t[at..at + |s|] == s
  }

  lemma OccursSplit<T>(a: seq<T>, b: seq<T>, t: seq<T>, at: nat)
    requires OccursAt(a + b, t, at)
    ensures OccursAt(a, t, at) && OccursAt(b, t, at + |a|)
  {
    assert a == (a + b)[..|a|] == t[at..at + |a + b|][..|a|];
    assert b == (a + b)[|a|..] == t[at..at + |a + b|][|a|..];
  }

  lemma OccursHead<T>(x: T, rest: seq<T>, t: seq<T>, at: nat)
    requires OccursAt([x] + rest, t, at)
    ensures at < |t| && t[at] == x && OccursAt(rest, t, at + 1)
  {
    OccursSplit([x], rest, t, at);
    assert t[at] == t[at..at + 1][0];
  }

  /** The outcome of a walk over what was built for a node: exactly that is consumed, exactly the matched
      txids are found, and the hash is the node's. */
  ghost predicate Faithful(hash: HashFn, txids: seq<Uint256>, vMatch: seq<bool>, height: nat, pos: nat,
                           nBits: nat, nHash: nat, w: Walked)
    requires |txids| == |vMatch| && IsNode(|txids|, height, pos)
  {
    && !w.bad
    && w.hash == CalcHash(hash, txids, height, pos)
    && w.nBits == nBits + |BuildBits(vMatch, height, pos)|
    && w.nHash == nHash + |BuildHashes(hash, txids, vMatch, height, pos)|
    && w.found == Matched(txids, vMatch, Lo(height, pos), Hi(|txids|, height, pos))
  }

  lemma WalkLeafBuilt(hash: HashFn, txids: seq<Uint256>, vMatch: seq<bool>, height: nat, pos: nat,
                      bits: seq<bool>, hashes: seq<Uint256>, nBits: nat, nHash: nat)
    requires |txids| == |vMatch| && IsNode(|txids|, height, pos)
    requires height == 0 || !NodeMatched(vMatch, height, pos)
    requires OccursAt(BuildBits(vMatch, height, pos), bits, nBits)
    requires OccursAt(BuildHashes(hash, txids, vMatch, height, pos), hashes, nHash)
    ensures Faithful(hash, txids, vMatch, height, pos, nBits, nHash,
                     Walk(hash, |txids|, bits, hashes, height, pos, nBits, nHash))
  {
    var B, H := BuildBits(vMatch, height, pos), BuildHashes(hash, txids, vMatch, height, pos);
    assert bits[nBits] == B[0] && hashes[nHash] == H[0];
    NoneMatched(txids, vMatch, Lo(height, pos), Hi(|txids|, height, pos));
    if height == 0 {
      LeafRange(|txids|, pos);
      assert Matched(txids, vMatch, pos, pos) == [];
      assert NodeMatched(vMatch, 0, pos) <==> vMatch[pos];
    }
  }

  lemma WalkInnerBuilt(hash: HashFn, txids: seq<Uint256>, vMatch: seq<bool>, height: nat, pos: nat,
                       nBits: nat, nHash: nat, left: Walked, right: Walked)
    requires |txids| == |vMatch| && height > 0 && IsNode(|txids|, height, pos)
    requires NodeMatched(vMatch, height, pos) && IsNode(|txids|, height - 1, pos * 2)
    requires Faithful(hash, txids, vMatch, height - 1, pos * 2, nBits + 1, nHash, left)
    requires HasRight(|txids|, height, pos) ==>
      Faithful(hash, txids, vMatch, height - 1, pos * 2 + 1, left.nBits, left.nHash, right)
    ensures Faithful(hash, txids, vMatch, height, pos, nBits, nHash,
      if HasRight(|txids|, height, pos) then
        Walked(left.bad || right.bad, hash(left.hash, right.hash), right.nBits, right.nHash,
               left.found + right.found, left.at + right.at)
      else left.(hash := hash(left.hash, left.hash)))
  {
    var n := |txids|;
    ChildRanges(n, height, pos);
    if HasRight(n, height, pos) {
      MatchedSplit(txids, vMatch, Lo(height, pos), Hi(n, height - 1, pos * 2), Hi(n, height, pos));
    }
  }

  /** Walking what was built is faithful, wherever in longer arrays it stands. */
  lemma {:induction false} WalkBuilt(hash: HashFn, txids: seq<Uint256>, vMatch: seq<bool>, height: nat, pos: nat,
                                     bits: seq<bool>, hashes: seq<Uint256>, nBits: nat, nHash: nat)
    requires |txids| == |vMatch| && IsNode(|txids|, height, pos)
    requires OccursAt(BuildBits(vMatch, height, pos), bits, nBits)
    requires OccursAt(BuildHashes(hash, txids, vMatch, height, pos), hashes, nHash)
    ensures Faithful(hash, txids, vMatch, height, pos, nBits, nHash,
                     Walk(hash, |txids|, bits, hashes, height, pos, nBits, nHash))
    decreases height
  {
    hide Faithful, CalcHash, CalcTreeWidth, NodeMatched, OccursAt;
    var n := |txids|;
    if height == 0 || !NodeMatched(vMatch, height, pos) {
      WalkLeafBuilt(hash, txids, vMatch, height, pos, bits, hashes, nBits, nHash);
    } else {
      LeftIsNode(n, height, pos);
      ChildBitsOccur(vMatch, height, pos, bits, nBits);
      ChildHashesOccur(hash, txids, vMatch, height, pos, hashes, nHash);
      WalkBuilt(hash, txids, vMatch, height - 1, pos * 2, bits, hashes, nBits + 1, nHash);
      var left := Walk(hash, n, bits, hashes, height - 1, pos * 2, nBits + 1, nHash);
      FaithfulUse(hash, txids, vMatch, height - 1, pos * 2, nBits + 1, nHash, left);
      if HasRight(n, height, pos) {
        WalkBuilt(hash, txids, vMatch, height - 1, pos * 2 + 1, bits, hashes, left.nBits, left.nHash);
      }
      var right := Walk(hash, n, bits, hashes, height - 1, pos * 2 + 1, left.nBits, left.nHash);
      WalkInnerBuilt(hash, txids, vMatch, height, pos, nBits, nHash, left, right);
    }
  }

  lemma FaithfulUse(hash: HashFn, txids: seq<Uint256>, vMatch: seq<bool>, height: nat, pos: nat,
                    nBits: nat, nHash: nat, w: Walked)
    requires |txids| == |vMatch| && IsNode(|txids|, height, pos)
    requires Faithful(hash, txids, vMatch, height, pos, nBits, nHash, w)
    ensures w.nBits == nBits + |BuildBits(vMatch, height, pos)|
    ensures w.nHash == nHash + |BuildHashes(hash, txids, vMatch, height, pos)|
  {
  }

  lemma BitsOfMatched(vMatch: seq<bool>, height: nat, pos: nat)
    requires height > 0 && NodeMatched(vMatch, height, pos)
    ensures BuildBits(vMatch, height, pos) == [true] + (BuildBits(vMatch, height - 1, pos * 2)
      + if HasRight(|vMatch|, height, pos) then BuildBits(vMatch, height - 1, pos * 2 + 1) else [])
  {
    hide NodeMatched, HasRight;
  }

  lemma HashesOfMatched(hash: HashFn, txids: seq<Uint256>, vMatch: seq<bool>, height: nat, pos: nat)
    requires |txids| == |vMatch| && height > 0 && IsNode(|txids|, height, pos)
    requires NodeMatched(vMatch, height, pos) && IsNode(|txids|, height - 1, pos * 2)
    ensures BuildHashes(hash, txids, vMatch, height, pos) == BuildHashes(hash, txids, vMatch, height - 1, pos * 2)
      + if HasRight(|txids|, height, pos) then BuildHashes(hash, txids, vMatch, height - 1, pos * 2 + 1) else []
  {
    hide NodeMatched, CalcTreeWidth, CalcHash;
  }

  lemma BuiltLeaf(hash: HashFn, txids: seq<Uint256>, vMatch: seq<bool>, height: nat, pos: nat)
    requires |txids| == |vMatch| && IsNode(|txids|, height, pos)
    requires height == 0 || !NodeMatched(vMatch, height, pos)
    ensures BuildBits(vMatch, height, pos) == [NodeMatched(vMatch, height, pos)]
    ensures BuildHashes(hash, txids, vMatch, height, pos) == [CalcHash(hash, txids, height, pos)]
  {
    hide NodeMatched;
  }

  lemma ChildBitsOccur(vMatch: seq<bool>, height: nat, pos: nat, bits: seq<bool>, nBits: nat)
    requires height > 0 && NodeMatched(vMatch, height, pos)
    requires OccursAt(BuildBits(vMatch, height, pos), bits, nBits)
    ensures nBits < |bits| && bits[nBits]
    ensures OccursAt(BuildBits(vMatch, height - 1, pos * 2), bits, nBits + 1)
    ensures HasRight(|vMatch|, height, pos) ==>
      OccursAt(BuildBits(vMatch, height - 1, pos * 2 + 1), bits,
               nBits + 1 + |BuildBits(vMatch, height - 1, pos * 2)|)
  {
    hide NodeMatched, HasRight, OccursAt, BuildBits;
    var left := BuildBits(vMatch, height - 1, pos * 2);
    var right := if HasRight(|vMatch|, height, pos) then BuildBits(vMatch, height - 1, pos * 2 + 1) else [];
    BitsOfMatched(vMatch, height, pos);
    OccursHead(true, left + right, bits, nBits);
    OccursSplit(left, right, bits, nBits + 1);
  }

  lemma ChildHashesOccur(hash: HashFn, txids: seq<Uint256>, vMatch: seq<bool>, height: nat, pos: nat,
                         hashes: seq<Uint256>, nHash: nat)
    requires |txids| == |vMatch| && height > 0 && IsNode(|txids|, height, pos)
    requires NodeMatched(vMatch, height, pos) && IsNode(|txids|, height - 1, pos * 2)
    requires OccursAt(BuildHashes(hash, txids, vMatch, height, pos), hashes, nHash)
    ensures OccursAt(BuildHashes(hash, txids, vMatch, height - 1, pos * 2), hashes, nHash)
    ensures HasRight(|txids|, height, pos) ==>
      OccursAt(BuildHashes(hash, txids, vMatch, height - 1, pos * 2 + 1), hashes,
               nHash + |BuildHashes(hash, txids, vMatch, height - 1, pos * 2)|)
  {
    hide CalcTreeWidth, OccursAt, BuildHashes;
    var left := BuildHashes(hash, txids, vMatch, height - 1, pos * 2);
    var right := if HasRight(|txids|, height, pos)
      then BuildHashes(hash, txids, vMatch, height - 1, pos * 2 + 1) else [];
    HashesOfMatched(hash, txids, vMatch, height, pos);
    OccursSplit(left, right, hashes, nHash);
  }

  function LeafCount(n: nat, height: nat, pos: nat): int {
    Hi(n, height, pos) - Lo(height, pos)
  }

  /** The size guarantees: never more hashes than leaves, never more than one plus matches times height,
      and at least one bit for each hash. */
  lemma {:induction false} BuiltSizes(hash: HashFn, txids: seq<Uint256>, vMatch: seq<bool>, height: nat, pos: nat)
    requires |txids| == |vMatch| && IsNode(|txids|, height, pos)
    ensures var hashes := BuildHashes(hash, txids, vMatch, height, pos);
      var found := Matched(txids, vMatch, Lo(height, pos), Hi(|txids|, height, pos));
      && 1 <= |hashes| <= LeafCount(|txids|, height, pos)
      && |hashes| <= 1 + |found| * height
      && |hashes| <= |BuildBits(vMatch, height, pos)|
    decreases height
  {
    hide CalcTreeWidth, CalcHash, HasRight, AnyMatch;
    var n := |txids|;
    NodeHasLeaf(n, height, pos);
    NoneMatched(txids, vMatch, Lo(height, pos), Hi(n, height, pos));
    if height == 0 {
      LeafRange(n, pos);
    } else {
      ChildRanges(n, height, pos);
      if NodeMatched(vMatch, height, pos) {
        BuiltSizes(hash, txids, vMatch, height - 1, pos * 2);
        var l := |Matched(txids, vMatch, Lo(height - 1, pos * 2), Hi(n, height - 1, pos * 2))|;
        if HasRight(n, height, pos) {
          BuiltSizes(hash, txids, vMatch, height - 1, pos * 2 + 1);
          var r := |Matched(txids, vMatch, Lo(height - 1, pos * 2 + 1), Hi(n, height - 1, pos * 2 + 1))|;
          MatchedSplit(txids, vMatch, Lo(height, pos), Hi(n, height - 1, pos * 2), Hi(n, height, pos));
          SizeStep(l, r, height);
        } else {
          SizeStep(l, 0, height);
        }
      }
    }
  }

  lemma SizeStep(l: nat, r: nat, height: nat)
    requires height > 0 && l + r > 0
    ensures (1 + l * (height - 1)) + (1 + r * (height - 1)) <= 1 + (l + r) * height
    ensures r == 0 ==> 1 + l * (height - 1) <= 1 + (l + r) * height
  {
    assert (l + r) * height == l * (height - 1) + r * (height - 1) + (l + r);
  }

  /** Inner nodes that are descended into and have an only child. */
  ghost function SingleChildren(vMatch: seq<bool>, height: nat, pos: nat): nat
    decreases height
  {
    if height == 0 || !NodeMatched(vMatch, height, pos) then 0
    else SingleChildren(vMatch, height - 1, pos * 2)
         + if HasRight(|vMatch|, height, pos) then SingleChildren(vMatch, height - 1, pos * 2 + 1) else 1
  }

  /** The number of bits is 2 * N - 1 for N hashes exactly when no such node is descended into; each one
      costs a bit more. */
  lemma {:induction false} BitCount(hash: HashFn, txids: seq<Uint256>, vMatch: seq<bool>, height: nat, pos: nat)
    requires |txids| == |vMatch| && IsNode(|txids|, height, pos)
    ensures |BuildBits(vMatch, height, pos)| ==
      2 * |BuildHashes(hash, txids, vMatch, height, pos)| - 1 + SingleChildren(vMatch, height, pos)
    decreases height
  {
    hide NodeMatched, CalcTreeWidth, CalcHash;
    if height > 0 && NodeMatched(vMatch, height, pos) {
      ChildRanges(|txids|, height, pos);
      BitCount(hash, txids, vMatch, height - 1, pos * 2);
      if HasRight(|txids|, height, pos) {
        BitCount(hash, txids, vMatch, height - 1, pos * 2 + 1);
      }
    }
  }

  lemma ThreeLeaves()
    ensures CalcTreeWidth(3, 0) == 3 && CalcTreeWidth(3, 1) == 2 && CalcTreeWidth(3, 2) == 1
    ensures TreeHeight(3) == 2
  {
    WidthStep(3, 0);
    WidthStep(3, 1);
    assert HeightFrom(3, 1) == HeightFrom(3, 2) == 2;
  }

  lemma LastOfThreeMatched(vMatch: seq<bool>)
    requires vMatch == [false, false, true]
    ensures NodeMatched(vMatch, 2, 0) && !NodeMatched(vMatch, 1, 0)
    ensures NodeMatched(vMatch, 1, 1) && NodeMatched(vMatch, 0, 2)
  {
    assert Pow2(0) == 1 && Pow2(1) == 2 && Pow2(2) == 4;
    assert vMatch[2];
  }

  /** Three txids, the last one matched: two hashes but four bits. */
  lemma BitBoundFails(hash: HashFn, txids: seq<Uint256>)
    requires |txids| == 3
    ensures var vMatch := [false, false, true];
      && TreeHeight(3) == 2
      && IsNode(3, 2, 0)
      && |BuildHashes(hash, txids, vMatch, 2, 0)| == 2
      && |BuildBits(vMatch, 2, 0)| == 4
  {
    hide NodeMatched, CalcTreeWidth, CalcHash, BuildBits;
    var vMatch := [false, false, true];
    ThreeLeaves();
    LastOfThreeMatched(vMatch);
    BuiltLeaf(hash, txids, vMatch, 1, 0);
    BuiltLeaf(hash, txids, vMatch, 0, 2);
    BitsOfMatched(vMatch, 2, 0);
    BitsOfMatched(vMatch, 1, 1);
    HashesOfMatched(hash, txids, vMatch, 2, 0);
    HashesOfMatched(hash, txids, vMatch, 1, 1);
  }

  // ---- soundness ----

  /** Found txids stand at their true, strictly increasing positions between lo and hi. */
  ghost predicate TrueAt(txids: seq<Uint256>, found: seq<Uint256>, at: seq<nat>, lo: nat, hi: nat) {
    && |found| == |at|
    && (forall i :: 0 <= i < |at| ==> lo <= at[i] < hi && at[i] < |txids| && found[i] == txids[at[i]])
    && (forall i, j :: 0 <= i < j < |at| ==> at[i] < at[j])
  }

  lemma TrueAtJoin(txids: seq<Uint256>, f1: seq<Uint256>, a1: seq<nat>, f2: seq<Uint256>, a2: seq<nat>,
                   lo: nat, mid: nat, hi: nat)
    requires lo <= mid <= hi
    requires TrueAt(txids, f1, a1, lo, mid) && TrueAt(txids, f2, a2, mid, hi)
    ensures TrueAt(txids, f1 + f2, a1 + a2, lo, hi)
  {
  }

  /** A pair that hashes to an inner node of the tree is the pair of its children. */
  lemma OnlyChildren(hash: HashFn, txids: seq<Uint256>, height: nat, pos: nat, a: Uint256, b: Uint256)
    requires 0 < height <= TreeHeight(|txids|) && IsNode(|txids|, height, pos)
    requires NoSecondPreimage(hash, txids) && hash(a, b) == CalcHash(hash, txids, height, pos)
    ensures IsNode(|txids|, height - 1, pos * 2) && a == CalcHash(hash, txids, height - 1, pos * 2)
    ensures HasRight(|txids|, height, pos) ==> b == CalcHash(hash, txids, height - 1, pos * 2 + 1)
  {
    LeftIsNode(|txids|, height, pos);
    assert NodeUnique(hash, txids, height, pos);
  }

  /** However the bits and hashes came about: a walk that ends in the true hash of a node found nothing but
      txids of that node, in their order. */
  lemma {:induction false} WalkSound(hash: HashFn, txids: seq<Uint256>, bits: seq<bool>, hashes: seq<Uint256>,
                                     height: nat, pos: nat, nBits: nat, nHash: nat)
    requires IsNode(|txids|, height, pos) && height <= TreeHeight(|txids|)
    requires NoSecondPreimage(hash, txids)
    requires var w := Walk(hash, |txids|, bits, hashes, height, pos, nBits, nHash);
      !w.bad && w.hash == CalcHash(hash, txids, height, pos)
    ensures var w := Walk(hash, |txids|, bits, hashes, height, pos, nBits, nHash);
      TrueAt(txids, w.found, w.at, Lo(height, pos), Hi(|txids|, height, pos))
    decreases height
  {
    hide CalcTreeWidth, TrueAt, HasRight, NoSecondPreimage, CalcHash;
    var n := |txids|;
    var w := Walk(hash, n, bits, hashes, height, pos, nBits, nHash);
    if height == 0 {
      LeafRange(n, pos);
      LeafHash(hash, txids, pos);
      TrueLeaf(txids, pos, bits[nBits], w);
    } else if !bits[nBits] {
      NoneTrue(txids, Lo(height, pos), Hi(n, height, pos));
    } else {
      ChildRanges(n, height, pos);
      var left := Walk(hash, n, bits, hashes, height - 1, pos * 2, nBits + 1, nHash);
      var other := if HasRight(n, height, pos)
        then Walk(hash, n, bits, hashes, height - 1, pos * 2 + 1, left.nBits, left.nHash) else left;
      OnlyChildren(hash, txids, height, pos, left.hash, other.hash);
      WalkSound(hash, txids, bits, hashes, height - 1, pos * 2, nBits + 1, nHash);
      if HasRight(n, height, pos) {
        WalkSound(hash, txids, bits, hashes, height - 1, pos * 2 + 1, left.nBits, left.nHash);
        TrueAtJoin(txids, left.found, left.at, other.found, other.at,
                   Lo(height, pos), Hi(n, height - 1, pos * 2), Hi(n, height, pos));
      }
    }
  }

  lemma NoneTrue(txids: seq<Uint256>, lo: nat, hi: nat)
    ensures TrueAt(txids, [], [], lo, hi)
  {
  }

  lemma LeafHash(hash: HashFn, txids: seq<Uint256>, pos: nat)
    requires pos < |txids|
    ensures IsNode(|txids|, 0, pos) && CalcHash(hash, txids, 0, pos) == txids[pos]
  {
    WidthStep(|txids|, 0);
  }

  lemma TrueLeaf(txids: seq<Uint256>, pos: nat, matched: bool, w: Walked)
    requires pos < |txids|
    requires if matched then w.found == [txids[pos]] && w.at == [pos] else w.found == [] && w.at == []
    ensures TrueAt(txids, w.found, w.at, pos, pos + 1)
  {
  }

  /** Whoever supplies bits and hashes that extract to the true root, for the true number of transactions,
      can only have named txids of the block, in block order. */
  lemma ExtractSound(hash: HashFn, txids: seq<Uint256>, bits: seq<bool>, hashes: seq<Uint256>)
    requires txids != [] && NoSecondPreimage(hash, txids)
    requires ExtractOk(hash, |txids|, bits, hashes)
    requires Walk(hash, |txids|, bits, hashes, TreeHeight(|txids|), 0, 0, 0).hash == Root(hash, txids)
    ensures var w := Walk(hash, |txids|, bits, hashes, TreeHeight(|txids|), 0, 0, 0);
      TrueAt(txids, w.found, w.at, 0, |txids|)
  {
    RootIsSingle(|txids|);
    WalkSound(hash, txids, bits, hashes, TreeHeight(|txids|), 0, 0, 0);
    RootRange(|txids|);
  }

  /** The root covers all leaves. */
  lemma RootRange(n: nat)
    requires n > 0
    ensures Lo(TreeHeight(n), 0) == 0 && Hi(n, TreeHeight(n), 0) == n
  {
    RootIsSingle(n);
    NodeHasLeaf(n, TreeHeight(n), 1);
  }

  /** What was built for a block extracts to its root and exactly the matched txids, also after the bits
      were padded to whole bytes. */
  lemma ExtractComplete(hash: HashFn, txids: seq<Uint256>, vMatch: seq<bool>, pad: seq<bool>)
    requires 0 < |txids| == |vMatch| <= MAX_BLOCK_SIZE / 60
    requires var nBits := |BuildBits(vMatch, TreeHeight(|txids|), 0)|; (nBits + |pad| + 7) / 8 == (nBits + 7) / 8
    ensures IsNode(|txids|, TreeHeight(|txids|), 0)
    ensures var bits := BuildBits(vMatch, TreeHeight(|txids|), 0) + pad;
      var hashes := BuildHashes(hash, txids, vMatch, TreeHeight(|txids|), 0);
      var w := Walk(hash, |txids|, bits, hashes, TreeHeight(|txids|), 0, 0, 0);
      && ExtractOk(hash, |txids|, bits, hashes)
      && w.hash == Root(hash, txids)
      && w.found == Matched(txids, vMatch, 0, |txids|)
  {
    var n, h := |txids|, TreeHeight(|txids|);
    RootIsSingle(n);
    RootRange(n);
    var built := BuildBits(vMatch, h, 0);
    var hashes := BuildHashes(hash, txids, vMatch, h, 0);
    assert (built + pad)[0..0 + |built|] == built && hashes[0..0 + |hashes|] == hashes;
    WalkBuilt(hash, txids, vMatch, h, 0, built + pad, hashes, 0, 0);
    BuiltSizes(hash, txids, vMatch, h, 0);
  }

  // ---- bits in bytes ----

  /** Bit p of a packed list: the list's own bit, false beyond its end. */
  predicate BitAt(bits: seq<bool>, p: nat) {
    p < |bits| && bits[p]
  }

  method PackBits(vBits: seq<bool>) returns (vBytes: seq<bv8>)
    ensures |vBytes| == (|vBits| + 7) / 8
    ensures forall p :: 0 <= p < 8 * |vBytes| ==> (BitOf(vBytes[p / 8], p % 8) <==> BitAt(vBits, p))
  {
    hide BitOf;
    vBytes := seq((|vBits| + 7) / 8, _ => 0);
    forall p | 0 <= p < 8 * |vBytes| ensures !BitOf(vBytes[p / 8], p % 8) {
      ZeroByte(p % 8);
    }
    for q := 0 to |vBits|
      invariant |vBytes| == (|vBits| + 7) / 8
      invariant forall p :: 0 <= p < 8 * |vBytes| ==> (BitOf(vBytes[p / 8], p % 8) <==> p < q && vBits[p])
    {
      ghost var was := vBytes;
      if vBits[q] {
        vBytes := vBytes[q / 8 := vBytes[q / 8] | BitMask(q % 8)];
      }
      forall p | 0 <= p < 8 * |vBytes|
        ensures BitOf(vBytes[p / 8], p % 8) <==> p < q + 1 && vBits[p]
      {
        SetBit(was[q / 8], q % 8, p % 8);
      }
    }
  }

  method UnpackBits(vBytes: seq<bv8>) returns (vBits: seq<bool>)
    ensures |vBits| == 8 * |vBytes|
    ensures forall p :: 0 <= p < |vBits| ==> vBits[p] == BitOf(vBytes[p / 8], p % 8)
  {
    vBits := seq(8 * |vBytes|, _ => false);
    for q := 0 to |vBits|
      invariant |vBits| == 8 * |vBytes|
      invariant forall p :: 0 <= p < q ==> vBits[p] == BitOf(vBytes[p / 8], p % 8)
    {
      vBits := vBits[q := BitOf(vBytes[q / 8], q % 8)];
    }
  }

  // ---- the object ----

  class CPartialMerkleTree {
    const hash: HashFn
    var nTransactions: nat
    var vBits: seq<bool>
    var vHash: seq<Uint256>
    var fBad: bool

    /** Build the partial tree of a block's txids for a match mask. */
    constructor (hash: HashFn, txids: seq<Uint256>, vMatch: seq<bool>)
      requires 0 < |txids| == |vMatch|
      ensures this.hash == hash && nTransactions == |txids| && !fBad
      ensures vBits == BuildBits(vMatch, TreeHeight(|txids|), 0)
      ensures IsNode(|txids|, TreeHeight(|txids|), 0)
      ensures vHash == BuildHashes(hash, txids, vMatch, TreeHeight(|txids|), 0)
    {
      this.hash, nTransactions, fBad := hash, |txids|, false;
      vBits, vHash := [], [];
      new;
      var nHeight := FindHeight();
      RootIsSingle(|txids|);
      TraverseAndBuild(nHeight, 0, txids, vMatch);
    }

    /** A tree received from elsewhere: hashes, and bits in bytes. */
    constructor Received(hash: HashFn, nTransactions: nat, vHash: seq<Uint256>, vBytes: seq<bv8>)
      ensures this.hash == hash && this.nTransactions == nTransactions && this.vHash == vHash && !fBad
      ensures |vBits| == 8 * |vBytes|
      ensures forall p :: 0 <= p < |vBits| ==> vBits[p] == BitOf(vBytes[p / 8], p % 8)
    {
      var bits := UnpackBits(vBytes);
      this.hash, this.nTransactions, this.vHash, vBits, fBad := hash, nTransactions, vHash, bits, false;
    }

    /** Search upwards for the first height with at most one node. */
    method FindHeight() returns (nHeight: nat)
      ensures nHeight == TreeHeight(nTransactions)
    {
      nHeight := 0;
      while CalcTreeWidth(nTransactions, nHeight) > 1
        invariant HeightFrom(nTransactions, nHeight) == TreeHeight(nTransactions)
        decreases CalcTreeWidth(nTransactions, nHeight)
      {
        WidthStep(nTransactions, nHeight);
        nHeight := nHeight + 1;
      }
    }

    /** Whether any leaf below a node is matched. */
    method ParentOfMatch(height: nat, pos: nat, vMatch: seq<bool>) returns (fParentOfMatch: bool)
      requires |vMatch| == nTransactions
      ensures fParentOfMatch <==> NodeMatched(vMatch, height, pos)
    {
      fParentOfMatch := false;
      var p, end := pos * Pow2(height), (pos + 1) * Pow2(height);
      MulSucc(pos, Pow2(height));
      while p < end && p < nTransactions
        invariant Lo(height, pos) <= p <= end
        invariant fParentOfMatch <==> exists q :: Lo(height, pos) <= q < p && q < |vMatch| && vMatch[q]
        decreases end - p
      {
        fParentOfMatch := fParentOfMatch || vMatch[p];
        p := p + 1;
      }
    }

    /** Append the bits and hashes of a node, depth first. */
    method TraverseAndBuild(height: nat, pos: nat, txids: seq<Uint256>, vMatch: seq<bool>)
      requires nTransactions == |txids| == |vMatch| && IsNode(|txids|, height, pos)
      modifies this
      ensures vBits == old(vBits) + BuildBits(vMatch, height, pos)
      ensures vHash == old(vHash) + BuildHashes(hash, txids, vMatch, height, pos)
      ensures nTransactions == old(nTransactions) && fBad == old(fBad)
      decreases height
    {
      hide NodeMatched, CalcTreeWidth, BuildBits, BuildHashes;
      var fParentOfMatch := ParentOfMatch(height, pos, vMatch);
      vBits := vBits + [fParentOfMatch];
      if height == 0 || !fParentOfMatch {
        BuiltLeaf(hash, txids, vMatch, height, pos);
        vHash := vHash + [CalcHash(hash, txids, height, pos)];
      } else {
        LeftIsNode(|txids|, height, pos);
        BitsOfMatched(vMatch, height, pos);
        HashesOfMatched(hash, txids, vMatch, height, pos);
        TraverseAndBuild(height - 1, pos * 2, txids, vMatch);
        if pos * 2 + 1 < CalcTreeWidth(nTransactions, height - 1) {
          TraverseAndBuild(height - 1, pos * 2 + 1, txids, vMatch);
        }
      }
    }

    /** Walk a node, advancing through the bits and hashes and collecting matched txids. */
    method TraverseAndExtract(height: nat, pos: nat, nBitsUsedIn: nat, nHashUsedIn: nat, vMatchIn: seq<Uint256>)
      returns (result: Uint256, nBitsUsed: nat, nHashUsed: nat, vMatch: seq<Uint256>)
      modifies this`fBad
      ensures var w := Walk(hash, nTransactions, vBits, vHash, height, pos, nBitsUsedIn, nHashUsedIn);
        && result == w.hash && nBitsUsed == w.nBits && nHashUsed == w.nHash
        && vMatch == vMatchIn + w.found
        && fBad == (old(fBad) || w.bad)
      decreases height
    {
      hide CalcTreeWidth;
      nBitsUsed, nHashUsed, vMatch := nBitsUsedIn, nHashUsedIn, vMatchIn;
      if nBitsUsed >= |vBits| {
        fBad := true;
        return 0, nBitsUsed, nHashUsed, vMatch;
      }
      var fParentOfMatch := vBits[nBitsUsed];
      nBitsUsed := nBitsUsed + 1;
      if height == 0 || !fParentOfMatch {
        if nHashUsed >= |vHash| {
          fBad := true;
          return 0, nBitsUsed, nHashUsed, vMatch;
        }
        result := vHash[nHashUsed];
        nHashUsed := nHashUsed + 1;
        if height == 0 && fParentOfMatch {
          vMatch := vMatch + [result];
        }
      } else {
        var left, right;
        left, nBitsUsed, nHashUsed, vMatch :=
          TraverseAndExtract(height - 1, pos * 2, nBitsUsed, nHashUsed, vMatch);
        if pos * 2 + 1 < CalcTreeWidth(nTransactions, height - 1) {
          right, nBitsUsed, nHashUsed, vMatch :=
            TraverseAndExtract(height - 1, pos * 2 + 1, nBitsUsed, nHashUsed, vMatch);
        } else {
          right := left;
        }
        result := hash(left, right);
      }
    }

    /** The root the tree claims, with the matched txids, or 0 when anything is wrong with it. */
    method ExtractMatches() returns (root: Uint256, vMatch: seq<Uint256>)
      modifies this`fBad
      ensures !old(fBad) && ExtractOk(hash, nTransactions, vBits, vHash) ==>
        var w := Walk(hash, nTransactions, vBits, vHash, TreeHeight(nTransactions), 0, 0, 0);
        root == w.hash && vMatch == w.found && !fBad
      ensures old(fBad) || !ExtractOk(hash, nTransactions, vBits, vHash) ==> root == 0
    {
      root, vMatch := 0, [];
      if nTransactions == 0 { return; }
      if nTransactions > MAX_BLOCK_SIZE / 60 { return; }
      if |vHash| > nTransactions { return; }
      if |vBits| < |vHash| { return; }
      var nHeight := FindHeight();
      var hashMerkleRoot, nBitsUsed, nHashUsed;
      hashMerkleRoot, nBitsUsed, nHashUsed, vMatch := TraverseAndExtract(nHeight, 0, 0, 0, vMatch);
      if fBad { return 0, vMatch; }
      if (nBitsUsed + 7) / 8 != (|vBits| + 7) / 8 { return 0, vMatch; }
      if nHashUsed != |vHash| { return 0, vMatch; }
      return hashMerkleRoot, vMatch;
    }
  }

  /** Build, pack into bytes, send, unpack, extract: the root and exactly the matched txids arrive, and the
      sizes keep the promised bounds. */
  method SendAndExtract(hash: HashFn, txids: seq<Uint256>, vMatch: seq<bool>)
    returns (root: Uint256, found: seq<Uint256>, vHash: seq<Uint256>, vBytes: seq<bv8>)
    requires 0 < |txids| == |vMatch| <= MAX_BLOCK_SIZE / 60
    ensures root == Root(hash, txids) && found == Matched(txids, vMatch, 0, |txids|)
    ensures |vHash| <= |txids| && |vHash| <= 1 + |found| * TreeHeight(|txids|)
  {
    hide Walk, BuildBits, BuildHashes, Root;
    var tree := new CPartialMerkleTree(hash, txids, vMatch);
    vHash := tree.vHash;
    vBytes := PackBits(tree.vBits);
    var received := new CPartialMerkleTree.Received(hash, tree.nTransactions, vHash, vBytes);
    ghost var pad := received.vBits[|tree.vBits|..];
    assert received.vBits == tree.vBits + pad;
    ExtractComplete(hash, txids, vMatch, pad);
    RootRange(|txids|);
    BuiltSizes(hash, txids, vMatch, TreeHeight(|txids|), 0);
    root, found := received.ExtractMatches();
  }

  /** A tree received from anyone that extracts to the nonzero merkle root of a block names only txids of that
      block, in block order. */
  method ReceiveForBlock(hash: HashFn, ghost txids: seq<Uint256>, root: Uint256, vHash: seq<Uint256>,
                         vBytes: seq<bv8>, nTransactions: nat)
    returns (ok: bool, found: seq<Uint256>)
    requires txids != [] && NoSecondPreimage(hash, txids)
    requires root == Root(hash, txids) != 0 && nTransactions == |txids|
    ensures ok ==> exists at :: TrueAt(txids, found, at, 0, |txids|)
  {
    var received := new CPartialMerkleTree.Received(hash, nTransactions, vHash, vBytes);
    ghost var bits := received.vBits;
    var claimed;
    claimed, found := received.ExtractMatches();
    ok := claimed == root;
    if ok {
      ExtractSound(hash, txids, bits, vHash);
      ghost var at := Walk(hash, |txids|, bits, vHash, TreeHeight(|txids|), 0, 0, 0).at;
      assert TrueAt(txids, found, at, 0, |txids|);
    }
  }
}
