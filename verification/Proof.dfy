/** Single-leaf inclusion proofs: internal/merkle/proof.go. */
module Proof {
  import opened Bytes
  import opened Merkle

  /** The neighbour of position i on its level: i ^ 1. */
  function Sibling(i: nat): (j: nat) {
    if i % 2 == 0 then i + 1 else i - 1
  }

  function ProofOf(h: Sha256, level: seq<Hash>, idx: nat): (proof: seq<Hash>)
    requires IsPow2(|level|) && idx < |level|
    decreases |level|
  {
    if |level| == 1 then [] else [level[Sibling(idx)]] + ProofOf(h, LevelUp(h, level), idx / 2)
  }

  /** proof.go's Proof; its panics are the demands on its callers. */
  method Prove(h: Sha256, leaves: seq<Hash>, index: nat) returns (proof: seq<Hash>)
    requires |leaves| > 0 && BitAnd(|leaves|, |leaves| - 1) == 0
    requires index < |leaves|
    ensures IsPow2(|leaves|) && proof == ProofOf(h, leaves, index)
  {
    BitTrickIsPow2(|leaves|);
    proof := [];
    var level, idx: nat := leaves, index;
    while |level| > 1
      invariant IsPow2(|level|) && idx < |level|
      invariant proof + ProofOf(h, level, idx) == ProofOf(h, leaves, index)
      decreases |level|
    {
      var sib := level[Sibling(idx)];
      level := CombinePairs(h, level);
      assert proof + ([sib] + ProofOf(h, level, idx / 2)) == (proof + [sib]) + ProofOf(h, level, idx / 2);
      proof := proof + [sib];
      idx := idx / 2;
    }
  }

  /** One step towards the root: the node at idx is a left child when idx is even. */
  function Join(h: Sha256, idx: nat, node: Hash, sib: Hash): (parent: Hash) {
    if idx % 2 == 0 then Combine(h, node, sib) else Combine(h, sib, node)
  }

  function Fold(h: Sha256, node: Hash, idx: nat, proof: seq<Hash>): (root: Hash)
    decreases |proof|
  {
    if proof == [] then node else Fold(h, Join(h, idx, node, proof[0]), idx / 2, proof[1..])
  }

  function BitLenOf(n: nat): (l: nat)
    ensures l >= 1
  {
    if n > 1 then BitLenOf(n / 2) + 1 else 1
  }

  method BitLen(n: nat) returns (l: nat)
    ensures l == BitLenOf(n)
  {
    l := 0;
    var m := n;
    while m > 1
      invariant l + BitLenOf(m) == BitLenOf(n)
    {
      m := m / 2;
      l := l + 1;
    }
    l := l + 1;
  }

  ghost predicate Accepts(h: Sha256, root: Hash, leaf: Hash, index: int, totalLeaves: int, proof: seq<Hash>) {
    0 <= index < totalLeaves && IsPow2(totalLeaves) && |proof| == BitLenOf(totalLeaves) - 1
    && Fold(h, leaf, index, proof) == root
  }

  method VerifyProof(h: Sha256, root: Hash, leaf: Hash, index: int, totalLeaves: int, proof: seq<Hash>)
    returns (ok: bool)
    ensures ok <==> Accepts(h, root, leaf, index, totalLeaves, proof)
  {
    if index < 0 || index >= totalLeaves {
      return false;
    }
    BitTrickIsPow2(totalLeaves);
    if BitAnd(totalLeaves, totalLeaves - 1) != 0 {
      return false;
    }
    var levels := BitLen(totalLeaves);
    if |proof| != levels - 1 {
      return false;
    }
    var node, idx: nat := leaf, index;
    for i := 0 to |proof|
      invariant Fold(h, node, idx, proof[i..]) == Fold(h, leaf, index, proof)
    {
      assert proof[i..][0] == proof[i] && proof[i..][1..] == proof[i + 1..];
      node := Join(h, idx, node, proof[i]);
      idx := idx / 2;
    }
    ok := node == root;
  }

  lemma {:induction false} ParentOf(h: Sha256, level: seq<Hash>, i: nat)
    requires |level| % 2 == 0 && i < |level|
    ensures Sibling(i) < |level|
    ensures LevelUp(h, level)[i / 2] == Join(h, i, level[i], level[Sibling(i)])
  {
    var j := i / 2;
    LevelUpAt(h, level, j);
    if i % 2 == 0 {
      assert i == 2 * j;
    } else {
      assert i == 2 * j + 1;
    }
  }

  /** Every leaf's own proof is accepted. */
  lemma {:induction false} ProofsVerify(h: Sha256, leaves: seq<Hash>, i: nat)
    requires IsPow2(|leaves|) && i < |leaves|
    ensures Accepts(h, RootOf(h, leaves), leaves[i], i, |leaves|, ProofOf(h, leaves, i))
    decreases |leaves|
  {
    if |leaves| > 1 {
      ParentOf(h, leaves, i);
      ProofsVerify(h, LevelUp(h, leaves), i / 2);
      var proof := ProofOf(h, leaves, i);
      assert proof[1..] == ProofOf(h, LevelUp(h, leaves), i / 2);
    }
  }

  /**
   * Binding, with the collision computed: from any accepted proof of a leaf other than the real one,
   * or of the real one by other siblings, two distinct inputs with one digest are read off.
   */
  function FindCollision(h: Sha256, leaves: seq<Hash>, i: nat, leaf: Hash, proof: seq<Hash>): (c: Collision)
    requires IsPow2(|leaves|) && Accepts(h, RootOf(h, leaves), leaf, i, |leaves|, proof)
    requires leaf != leaves[i] || proof != ProofOf(h, leaves, i)
    ensures c.OfNodes? && Collides(h, c)
    decreases |leaves|
  {
    if |leaves| == 1 then
      assert false;
      OfBlocks([], [])
    else
      ParentOf(h, leaves, i);
      var up := LevelUp(h, leaves);
      var sib := leaves[Sibling(i)];
      var node := Join(h, i, leaf, proof[0]);
      if node == up[i / 2] && (leaf != leaves[i] || proof[0] != sib) then
        if i % 2 == 0 then OfNodes(leaf, proof[0], leaves[i], sib) else OfNodes(proof[0], leaf, sib, leaves[i])
      else
        FindCollision(h, up, i / 2, node, proof[1..])
  }
}
