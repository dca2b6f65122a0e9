/** The merkle tree of a block's txids: the recursive definition, the flat array of levels the block keeps,
    and merkle branches (src/main.cpp, src/main.h, src/core.cpp). hash is the function that combines two
    nodes; nothing is assumed about it unless a lemma says so. */
module MerkleTree {
  import opened Core
  import opened Arith

  type HashFn = (Uint256, Uint256) -> Uint256

  /** Number of nodes at a height of the tree over n leaves. */
  function CalcTreeWidth(n: nat, height: nat): nat {
    (n + Pow2(height) - 1) / Pow2(height)
  }

  /** Each level has half the nodes of the one below, rounded up. */
  lemma WidthStep(n: nat, height: nat)
    ensures CalcTreeWidth(n, 0) == n
    ensures CalcTreeWidth(n, height + 1) == (CalcTreeWidth(n, height) + 1) / 2
  {
    var d := Pow2(height);
    DivHalf(n + 2 * d - 1, d);
    DivBounds(n + d - 1, d);
    var q := CalcTreeWidth(n, height);
    assert (q + 1) * d <= n + 2 * d - 1 < (q + 1 + 1) * d;
    DivIs(n + 2 * d - 1, d, q + 1);
  }

  lemma {:induction false} WidthPositive(n: nat, height: nat)
    requires n > 0
    ensures CalcTreeWidth(n, height) > 0
  {
    if height > 0 { WidthPositive(n, height - 1); }
    WidthStep(n, if height > 0 then height - 1 else 0);
  }

  /** The lowest height with a single node, searched from below. */
  function HeightFrom(n: nat, height: nat): (h: nat)
    ensures height <= h && CalcTreeWidth(n, h) <= 1
    ensures forall k :: height <= k < h ==> CalcTreeWidth(n, k) > 1
    decreases CalcTreeWidth(n, height)
  {
    WidthStep(n, height);
    if CalcTreeWidth(n, height) > 1 then HeightFrom(n, height + 1) else height
  }

  function TreeHeight(n: nat): nat {
    HeightFrom(n, 0)
  }

  lemma RootIsSingle(n: nat)
    requires n > 0
    ensures CalcTreeWidth(n, TreeHeight(n)) == 1
  {
    WidthPositive(n, TreeHeight(n));
  }

  /** A node of the tree over n leaves. */
  predicate IsNode(n: nat, height: nat, pos: nat) {
    pos < CalcTreeWidth(n, height)
  }

  predicate HasRight(n: nat, height: nat, pos: nat)
    requires height > 0
  {
    pos * 2 + 1 < CalcTreeWidth(n, height - 1)
  }

  lemma LeftIsNode(n: nat, height: nat, pos: nat)
    requires height > 0 && IsNode(n, height, pos)
    ensures IsNode(n, height - 1, pos * 2)
  {
    WidthStep(n, height - 1);
  }

  lemma ParentIsNode(n: nat, height: nat, pos: nat)
    requires IsNode(n, height, pos)
    ensures IsNode(n, height + 1, pos / 2)
  {
    WidthStep(n, height);
  }

  /** Hash of a node; an only child is paired with itself. */
  function CalcHash(hash: HashFn, txids: seq<Uint256>, height: nat, pos: nat): Uint256
    requires IsNode(|txids|, height, pos)
    decreases height
  {
    if height == 0 then
      WidthStep(|txids|, 0);
      txids[pos]
    else
      LeftIsNode(|txids|, height, pos);
      hash(LeftHash(hash, txids, height, pos), RightHash(hash, txids, height, pos))
  }

  function LeftHash(hash: HashFn, txids: seq<Uint256>, height: nat, pos: nat): Uint256
    requires height > 0 && IsNode(|txids|, height, pos)
    decreases height, 0
  {
    LeftIsNode(|txids|, height, pos);
    CalcHash(hash, txids, height - 1, pos * 2)
  }

  function RightHash(hash: HashFn, txids: seq<Uint256>, height: nat, pos: nat): Uint256
    requires height > 0 && IsNode(|txids|, height, pos)
    decreases height, 1
  {
    if HasRight(|txids|, height, pos) then CalcHash(hash, txids, height - 1, pos * 2 + 1)
    else LeftHash(hash, txids, height, pos)
  }

  function Root(hash: HashFn, txids: seq<Uint256>): Uint256
    requires txids != []
  {
    RootIsSingle(|txids|);
    CalcHash(hash, txids, TreeHeight(|txids|), 0)
  }

  /** No other pair of values hashes to this inner node. */
  ghost predicate NodeUnique(hash: HashFn, txids: seq<Uint256>, height: nat, pos: nat)
    requires height > 0 && IsNode(|txids|, height, pos)
  {
    forall a, b :: hash(a, b) == CalcHash(hash, txids, height, pos) ==>
      a == LeftHash(hash, txids, height, pos) && b == RightHash(hash, txids, height, pos)
  }

  /** No second preimage of any inner node of this tree is known: all that soundness needs of the hash. */
  ghost predicate NoSecondPreimage(hash: HashFn, txids: seq<Uint256>) {
    forall height, pos :: 0 < height <= TreeHeight(|txids|) && IsNode(|txids|, height, pos) ==>
      NodeUnique(hash, txids, height, pos)
  }

  // ---- levels in a flat array ----

  function Level(hash: HashFn, txids: seq<Uint256>, height: nat): (s: seq<Uint256>)
    ensures |s| == CalcTreeWidth(|txids|, height)
  {
    seq(CalcTreeWidth(|txids|, height),
        i requires 0 <= i < CalcTreeWidth(|txids|, height) => CalcHash(hash, txids, height, i))
  }

  lemma LevelIndex(hash: HashFn, txids: seq<Uint256>, height: nat, i: nat)
    requires IsNode(|txids|, height, i)
    ensures Level(hash, txids, height)[i] == CalcHash(hash, txids, height, i)
  {
  }

  /** The levels below a height, one after the other. */
  function Levels(hash: HashFn, txids: seq<Uint256>, height: nat): seq<Uint256> {
    if height == 0 then [] else Levels(hash, txids, height - 1) + Level(hash, txids, height - 1)
  }

  lemma FirstLevel(hash: HashFn, txids: seq<Uint256>)
    ensures Levels(hash, txids, 0) == [] && Levels(hash, txids, 1) == txids
  {
    WidthStep(|txids|, 0);
    assert Level(hash, txids, 0) == txids;
  }

  lemma {:induction false} LevelsPrefix(hash: HashFn, txids: seq<Uint256>, a: nat, b: nat)
    requires a <= b
    ensures Levels(hash, txids, a) <= Levels(hash, txids, b)
  {
    if a < b { LevelsPrefix(hash, txids, a, b - 1); }
  }

  /** Where the nodes of a level are found in the array of all levels. */
  lemma LevelAt(hash: HashFn, txids: seq<Uint256>, height: nat, top: nat, i: nat)
    requires height < top && IsNode(|txids|, height, i)
    ensures var j := |Levels(hash, txids, height)|; var all := Levels(hash, txids, top);
      j + i < |all| && all[j + i] == CalcHash(hash, txids, height, i)
  {
    LevelsPrefix(hash, txids, height + 1, top);
  }

  /** The position at height k above leaf i. */
  function Above(i: nat, k: nat): nat {
    if k == 0 then i else Above(i, k - 1) / 2
  }

  lemma {:induction false} AboveIsNode(n: nat, i: nat, k: nat)
    requires i < n
    ensures IsNode(n, k, Above(i, k))
  {
    WidthStep(n, 0);
    if k > 0 {
      AboveIsNode(n, i, k - 1);
      ParentIsNode(n, k - 1, Above(i, k - 1));
    }
  }

  function XorOne(i: nat): nat {
    if i % 2 == 0 then i + 1 else i - 1
  }

  /** The node next to the one above leaf i at height k; the node itself where there is none. */
  function SiblingPos(n: nat, i: nat, k: nat): (pos: nat)
    requires i < n
    ensures IsNode(n, k, pos)
  {
    AboveIsNode(n, i, k);
    var sib := XorOne(Above(i, k));
    if sib < CalcTreeWidth(n, k) then sib else CalcTreeWidth(n, k) - 1
  }

  /** Fold the first k elements of a branch into a leaf hash. */
  function FoldBranch(hash: HashFn, leaf: Uint256, branch: seq<Uint256>, i: nat, k: nat): Uint256
    requires k <= |branch|
  {
    if k == 0 then leaf
    else
      var below := FoldBranch(hash, leaf, branch, i, k - 1);
      if Above(i, k - 1) % 2 == 1 then hash(branch[k - 1], below) else hash(below, branch[k - 1])
  }

  /** The branch that belongs to leaf i. */
  ghost predicate BranchOf(hash: HashFn, txids: seq<Uint256>, i: nat, branch: seq<Uint256>)
    requires i < |txids|
  {
    && |branch| == TreeHeight(|txids|)
    && forall k :: 0 <= k < |branch| ==>
         branch[k] == CalcHash(hash, txids, k, SiblingPos(|txids|, i, k))
  }

  /** A node is the hash of the one above leaf i and its sibling, in the order of their positions. */
  lemma NodeFromSibling(hash: HashFn, txids: seq<Uint256>, i: nat, k: nat)
    requires i < |txids|
    ensures IsNode(|txids|, k, Above(i, k)) && IsNode(|txids|, k + 1, Above(i, k + 1))
    ensures var here := CalcHash(hash, txids, k, Above(i, k));
      var side := CalcHash(hash, txids, k, SiblingPos(|txids|, i, k));
      && CalcHash(hash, txids, k + 1, Above(i, k + 1)) ==
           (if Above(i, k) % 2 == 1 then hash(side, here) else hash(here, side))
      && LeftHash(hash, txids, k + 1, Above(i, k + 1)) == (if Above(i, k) % 2 == 1 then side else here)
      && RightHash(hash, txids, k + 1, Above(i, k + 1)) == (if Above(i, k) % 2 == 1 then here else side)
  {
    AboveIsNode(|txids|, i, k);
    AboveIsNode(|txids|, i, k + 1);
    WidthStep(|txids|, k);
    var up, p := Above(i, k + 1), Above(i, k);
    if p % 2 == 1 {
      assert p == up * 2 + 1;
    } else {
      assert p == up * 2;
    }
  }

  lemma {:induction false} FoldClimbs(hash: HashFn, txids: seq<Uint256>, i: nat, branch: seq<Uint256>, k: nat)
    requires i < |txids| && BranchOf(hash, txids, i, branch) && k <= |branch|
    ensures IsNode(|txids|, k, Above(i, k))
    ensures FoldBranch(hash, txids[i], branch, i, k) == CalcHash(hash, txids, k, Above(i, k))
  {
    AboveIsNode(|txids|, i, k);
    if k == 0 {
      WidthStep(|txids|, 0);
    } else {
      FoldClimbs(hash, txids, i, branch, k - 1);
      NodeFromSibling(hash, txids, i, k - 1);
    }
  }

  lemma AboveRoot(n: nat, i: nat)
    requires i < n
    ensures Above(i, TreeHeight(n)) == 0
  {
    AboveIsNode(n, i, TreeHeight(n));
    RootIsSingle(n);
  }

  /** Checking a txid with its own branch gives the root, whatever the number of leaves at each level. */
  lemma BranchComplete(hash: HashFn, txids: seq<Uint256>, i: nat, branch: seq<Uint256>)
    requires i < |txids| && BranchOf(hash, txids, i, branch)
    ensures FoldBranch(hash, txids[i], branch, i, |branch|) == Root(hash, txids)
  {
    FoldClimbs(hash, txids, i, branch, |branch|);
    AboveRoot(|txids|, i);
  }

  lemma {:induction false} FoldDescends(hash: HashFn, txids: seq<Uint256>, x: Uint256, branch: seq<Uint256>,
                                        i: nat, k: nat)
    requires i < |txids| && NoSecondPreimage(hash, txids)
    requires k <= |branch| && k <= TreeHeight(|txids|)
    requires IsNode(|txids|, k, Above(i, k))
    requires FoldBranch(hash, x, branch, i, k) == CalcHash(hash, txids, k, Above(i, k))
    ensures x == txids[i]
    decreases k
  {
    if k > 0 {
      NodeFromSibling(hash, txids, i, k - 1);
      assert NodeUnique(hash, txids, k, Above(i, k));
      FoldDescends(hash, txids, x, branch, i, k - 1);
    }
  }

  /** Conversely, a branch of the tree's height that leads from any hash at position i to the root proves
      that the hash is the txid at that position. */
  lemma BranchSound(hash: HashFn, txids: seq<Uint256>, x: Uint256, branch: seq<Uint256>, i: nat)
    requires i < |txids| && NoSecondPreimage(hash, txids)
    requires |branch| == TreeHeight(|txids|)
    requires FoldBranch(hash, x, branch, i, |branch|) == Root(hash, txids)
    ensures x == txids[i]
  {
    AboveRoot(|txids|, i);
    RootIsSingle(|txids|);
    FoldDescends(hash, txids, x, branch, i, |branch|);
  }

  /** Where a node of an even position and its right neighbour, or itself, are found, and what they make. */
  lemma PairUp(hash: HashFn, txids: seq<Uint256>, height: nat, i: nat)
    requires i % 2 == 0 && IsNode(|txids|, height, i)
    ensures var w := CalcTreeWidth(|txids|, height); var i2 := if i + 1 < w then i + 1 else w - 1;
      var j := |Levels(hash, txids, height)|; var all := Levels(hash, txids, height + 1);
      && j + i < |all| && j + i2 < |all| && IsNode(|txids|, height + 1, i / 2)
      && CalcHash(hash, txids, height + 1, i / 2) == hash(all[j + i], all[j + i2])
  {
    var w := CalcTreeWidth(|txids|, height);
    var i2 := if i + 1 < w then i + 1 else w - 1;
    ParentIsNode(|txids|, height, i);
    LevelAt(hash, txids, height, height + 1, i);
    LevelAt(hash, txids, height, height + 1, i2);
  }

  // ---- the block's own array ----

  /** The part of CBlock that concerns its merkle tree. */
  class CBlock {
    const hash: HashFn
    const txids: seq<Uint256>
    var vMerkleTree: seq<Uint256>

    /** Not built yet, or all levels up to the root. */
    ghost predicate Valid()
      reads this
    {
      vMerkleTree == [] || vMerkleTree == Levels(hash, txids, TreeHeight(|txids|) + 1)
    }

    constructor (hash: HashFn, txids: seq<Uint256>)
      ensures Valid() && this.hash == hash && this.txids == txids && vMerkleTree == []
    {
      this.hash, this.txids, vMerkleTree := hash, txids, [];
    }

    /** Append the level above the one that starts at j, pairing an odd last node with itself. */
    method AppendLevel(j: nat, nSize: nat, ghost h: nat)
      requires nSize == CalcTreeWidth(|txids|, h)
      requires vMerkleTree == Levels(hash, txids, h + 1) && j == |Levels(hash, txids, h)|
      modifies this
      ensures vMerkleTree == Levels(hash, txids, h + 2)
    {
      hide CalcHash, CalcTreeWidth, Level;
      WidthStep(|txids|, h);
      ghost var was := vMerkleTree;
      ghost var up := Level(hash, txids, h + 1);
      var i := 0;
      while i < nSize
        invariant i % 2 == 0 && 0 <= i <= nSize + 1
        invariant i / 2 <= |up| && vMerkleTree == was + up[..i / 2]
      {
        var i2 := if i + 1 < nSize then i + 1 else nSize - 1;
        PairUp(hash, txids, h, i);
        LevelIndex(hash, txids, h + 1, i / 2);
        vMerkleTree := vMerkleTree + [hash(vMerkleTree[j + i], vMerkleTree[j + i2])];
        i := i + 2;
      }
      assert up[..i / 2] == up;
    }

    /** Build all levels; the last element is the root. */
    method BuildMerkleTree() returns (root: Uint256)
      modifies this
      ensures vMerkleTree == Levels(hash, txids, TreeHeight(|txids|) + 1)
      ensures root == if txids == [] then 0 else Root(hash, txids)
    {
      hide CalcHash, CalcTreeWidth;
      vMerkleTree := txids;
      FirstLevel(hash, txids);
      WidthStep(|txids|, 0);
      var j, nSize := 0, |txids|;
      ghost var h := 0;
      while nSize > 1
        invariant nSize == CalcTreeWidth(|txids|, h) && h <= TreeHeight(|txids|)
        invariant vMerkleTree == Levels(hash, txids, h + 1) && j == |Levels(hash, txids, h)|
        decreases nSize
      {
        AppendLevel(j, nSize, h);
        WidthStep(|txids|, h);
        j := j + nSize;
        nSize := (nSize + 1) / 2;
        h := h + 1;
      }
      assert h == TreeHeight(|txids|);
      if txids == [] {
        assert vMerkleTree == [];
        return 0;
      }
      RootIsSingle(|txids|);
      LevelAt(hash, txids, h, h + 1, 0);
      root := vMerkleTree[|vMerkleTree| - 1];
    }

    /** The siblings on the way from a leaf to the root, read from the array. */
    method GetMerkleBranch(nIndexIn: nat) returns (vMerkleBranch: seq<Uint256>)
      requires Valid() && nIndexIn < |txids|
      modifies this
      ensures Valid() && BranchOf(hash, txids, nIndexIn, vMerkleBranch)
    {
      hide CalcHash, CalcTreeWidth;
      if vMerkleTree == [] {
        var root := BuildMerkleTree();
      }
      var nIndex := nIndexIn;
      vMerkleBranch := [];
      WidthStep(|txids|, 0);
      var j, nSize := 0, |txids|;
      ghost var h := 0;
      while nSize > 1
        invariant vMerkleTree == Levels(hash, txids, TreeHeight(|txids|) + 1)
        invariant nSize == CalcTreeWidth(|txids|, h) && h <= TreeHeight(|txids|)
        invariant j == |Levels(hash, txids, h)| && nIndex == Above(nIndexIn, h)
        invariant |vMerkleBranch| == h
        invariant forall k :: 0 <= k < h ==>
          vMerkleBranch[k] == CalcHash(hash, txids, k, SiblingPos(|txids|, nIndexIn, k))
        decreases nSize
      {
        var i := XorOne(nIndex);
        if i >= nSize { i := nSize - 1; }
        assert i == SiblingPos(|txids|, nIndexIn, h);
        LevelAt(hash, txids, h, TreeHeight(|txids|) + 1, i);
        WidthStep(|txids|, h);
        vMerkleBranch := vMerkleBranch + [vMerkleTree[j + i]];
        nIndex := nIndex / 2;
        j := j + nSize;
        nSize := (nSize + 1) / 2;
        h := h + 1;
      }
    }
  }

  /** Climb from a hash along a branch; an index of -1 gives 0. */
  method CheckMerkleBranch(hash: HashFn, leaf: Uint256, vMerkleBranch: seq<Uint256>, nIndexIn: int)
    returns (root: Uint256)
    requires nIndexIn >= -1
    ensures root == if nIndexIn == -1 then 0 else FoldBranch(hash, leaf, vMerkleBranch, nIndexIn, |vMerkleBranch|)
  {
    if nIndexIn == -1 { return 0; }
    var nIndex := nIndexIn;
    root := leaf;
    for k := 0 to |vMerkleBranch|
      invariant nIndex == Above(nIndexIn, k) && root == FoldBranch(hash, leaf, vMerkleBranch, nIndexIn, k)
    {
      root := if nIndex % 2 == 1 then hash(vMerkleBranch[k], root) else hash(root, vMerkleBranch[k]);
      nIndex := nIndex / 2;
    }
  }
}
