/** The SHA-256 merkle tree of BitTorrent v2 (BEP 52): internal/merkle/tree.go. */
module Merkle {
  import opened Bytes

  const BLOCK_SIZE := 16384

  function Combine(h: Sha256, l: Hash, r: Hash): (c: Hash) {
    h.node(l, r)
  }

  // ---------- one level at a time ----------

  /** The level above `level`: neighbours combined pairwise, as the loops over `next` do. */
  function LevelUp(h: Sha256, level: seq<Hash>): (next: seq<Hash>)
    requires |level| % 2 == 0
    ensures |next| == |level| / 2
  {
    if level == [] then [] else [Combine(h, level[0], level[1])] + LevelUp(h, level[2..])
  }

  lemma {:induction false} LevelUpAt(h: Sha256, level: seq<Hash>, i: nat)
    requires |level| % 2 == 0 && 2 * i < |level|
    ensures LevelUp(h, level)[i] == Combine(h, level[2 * i], level[2 * i + 1])
  {
    if i > 0 {
      LevelUpAt(h, level[2..], i - 1);
    }
  }

  function RootOf(h: Sha256, leaves: seq<Hash>): (root: Hash)
    requires IsPow2(|leaves|)
    decreases |leaves|
  {
    if |leaves| == 1 then leaves[0] else RootOf(h, LevelUp(h, leaves))
  }

  /** The inner loop of Root and of Proof. */
  method CombinePairs(h: Sha256, level: seq<Hash>) returns (next: seq<Hash>)
    requires |level| % 2 == 0
    ensures next == LevelUp(h, level)
  {
    next := [];
    for i := 0 to |level| / 2
      invariant next == LevelUp(h, level)[..i]
    {
      LevelUpAt(h, level, i);
      next := next + [Combine(h, level[2 * i], level[2 * i + 1])];
    }
  }

  /** tree.go's Root. Its two panics are its demand on callers: a power-of-two leaf count. */
  method Root(h: Sha256, leaves: seq<Hash>) returns (root: Hash)
    requires |leaves| > 0 && BitAnd(|leaves|, |leaves| - 1) == 0
    ensures IsPow2(|leaves|) && root == RootOf(h, leaves)
  {
    BitTrickIsPow2(|leaves|);
    var level := leaves;
    while |level| > 1
      invariant IsPow2(|level|)
      invariant RootOf(h, level) == RootOf(h, leaves)
      decreases |level|
    {
      level := CombinePairs(h, level);
    }
    root := level[0];
  }

  // ---------- the tree the levels stand for ----------

  /** The root defined top-down: the hash of the roots of the two halves. */
  function TreeRoot(h: Sha256, s: seq<Hash>): (root: Hash)
    requires IsPow2(|s|)
    decreases |s|
  {
    if |s| == 1 then s[0]
    else Combine(h, TreeRoot(h, s[..|s| / 2]), TreeRoot(h, s[|s| / 2..]))
  }

  lemma {:induction false} LevelUpSplit(h: Sha256, a: seq<Hash>, b: seq<Hash>)
    requires |a| % 2 == 0 && |b| % 2 == 0
    ensures LevelUp(h, a + b) == LevelUp(h, a) + LevelUp(h, b)
  {
    if a == [] {
      assert a + b == b;
    } else {
      LevelUpSplit(h, a[2..], b);
      assert (a + b)[2..] == a[2..] + b;
    }
  }

  /** Combining level by level computes exactly the recursive tree. */
  lemma {:induction false} LevelsBuildTheTree(h: Sha256, s: seq<Hash>)
    requires IsPow2(|s|)
    ensures RootOf(h, s) == TreeRoot(h, s)
    decreases |s|, 1
  {
    if |s| > 1 {
      LevelsBuildTheTree(h, LevelUp(h, s));
      TreeOfNextLevel(h, s);
    }
  }

  lemma {:induction false} TreeOfNextLevel(h: Sha256, s: seq<Hash>)
    requires IsPow2(|s|) && |s| > 1
    ensures TreeRoot(h, LevelUp(h, s)) == TreeRoot(h, s)
    decreases |s|, 0
  {
    var m := |s| / 2;
    var a, b := s[..m], s[m..];
    if m > 1 {
      TreeOfNextLevel(h, a);
      TreeOfNextLevel(h, b);
      assert s == a + b;
      LevelUpSplit(h, a, b);
      var up := LevelUp(h, s);
      assert up[..|up| / 2] == LevelUp(h, a) && up[|up| / 2..] == LevelUp(h, b);
    }
  }

  /** Root(L ++ R) is the combination of the two roots. */
  lemma {:induction false} RootOfHalves(h: Sha256, l: seq<Hash>, r: seq<Hash>)
    requires |l| == |r| && IsPow2(|l|)
    ensures IsPow2(|l + r|) && RootOf(h, l + r) == Combine(h, RootOf(h, l), RootOf(h, r))
  {
    var s := l + r;
    assert s[..|s| / 2] == l && s[|s| / 2..] == r;
    LevelsBuildTheTree(h, l);
    LevelsBuildTheTree(h, r);
    LevelsBuildTheTree(h, s);
  }

  // ---------- padding ----------

  function NextPow2Of(n: int): (p: nat)
    ensures IsPow2(p) && p >= n
    decreases n
  {
    if n <= 1 then 1 else 2 * NextPow2Of((n + 1) / 2)
  }

  lemma {:induction false} NextPow2IsLeast(n: int, q: int)
    requires IsPow2(q) && q >= n
    ensures NextPow2Of(n) <= q
    decreases n
  {
    if n > 1 {
      NextPow2IsLeast((n + 1) / 2, q / 2);
    }
  }

  lemma {:induction false} NextPow2Fixpoint(n: int)
    requires IsPow2(n)
    ensures NextPow2Of(n) == n
  {
    NextPow2IsLeast(n, n);
  }

  method NextPow2(n: int) returns (p: int)
    ensures p == NextPow2Of(n)
    ensures IsPow2(p) && p >= n && forall q :: IsPow2(q) && q >= n ==> p <= q
  {
    forall q | IsPow2(q) && q >= n ensures NextPow2Of(n) <= q {
      NextPow2IsLeast(n, q);
    }
    if n <= 1 {
      return 1;
    }
    p := 1;
    while p < n
      invariant IsPow2(p) && p <= NextPow2Of(n)
      decreases n - p
    {
      Pow2Gap(p, NextPow2Of(n));
      p := p * 2;
    }
  }

  /** There is no power of two strictly between p and 2p. */
  lemma {:induction false} Pow2Gap(p: int, q: int)
    requires IsPow2(p) && IsPow2(q) && p < q
    ensures 2 * p <= q
  {
    if p > 1 {
      Pow2Gap(p / 2, q / 2);
    }
  }

  function Repeat<T>(n: nat, x: T): (r: seq<T>)
    ensures |r| == n && forall i :: 0 <= i < n ==> r[i] == x
  {
    if n == 0 then [] else Repeat(n - 1, x) + [x]
  }

  function PadWith(s: seq<Hash>, n: nat, filler: Hash): (r: seq<Hash>)
    ensures |r| == n
  {
    if |s| >= n then s[..n] else s + Repeat(n - |s|, filler)
  }

  function PadLeaves(leaves: seq<Hash>, n: nat): (r: seq<Hash>)
    ensures |r| == n
  {
    PadWith(leaves, n, ZERO_HASH)
  }

  // ---------- piece roots and file roots ----------

  function PieceRootOf(h: Sha256, leaves: seq<Hash>, blocksPerPiece: nat, soleFilePiece: bool): (root: Hash)
    requires IsPow2(blocksPerPiece)
  {
    var target := if soleFilePiece then NextPow2Of(|leaves|) else blocksPerPiece;
    RootOf(h, PadLeaves(leaves, target))
  }

  method PieceRoot(h: Sha256, leaves: seq<Hash>, blocksPerPiece: nat, soleFilePiece: bool) returns (root: Hash)
    requires IsPow2(blocksPerPiece)
    ensures root == PieceRootOf(h, leaves, blocksPerPiece, soleFilePiece)
  {
    var target := blocksPerPiece;
    if soleFilePiece {
      target := NextPow2(|leaves|);
    }
    BitTrickIsPow2(target);
    root := Root(h, PadLeaves(leaves, target));
  }

  function ZeroPiece(h: Sha256, blocksPerPiece: nat): (root: Hash)
    requires IsPow2(blocksPerPiece)
  {
    PieceRootOf(h, [], blocksPerPiece, false)
  }

  function FileRootOf(h: Sha256, pieceRoots: seq<Hash>, blocksPerPiece: nat): (root: Hash)
    requires IsPow2(blocksPerPiece)
  {
    RootOf(h, PadWith(pieceRoots, NextPow2Of(|pieceRoots|), ZeroPiece(h, blocksPerPiece)))
  }

  method FileRoot(h: Sha256, pieceRoots: seq<Hash>, blocksPerPiece: nat) returns (root: Hash)
    requires IsPow2(blocksPerPiece)
    ensures root == FileRootOf(h, pieceRoots, blocksPerPiece)
  {
    hide RootOf, PieceRootOf, NextPow2Of, IsPow2, BitAnd;
    var target := NextPow2(|pieceRoots|);
    BitTrickIsPow2(target);
    if target == |pieceRoots| {
      root := Root(h, pieceRoots);
      assert PadWith(pieceRoots, target, ZeroPiece(h, blocksPerPiece)) == pieceRoots;
      return;
    }
    var zeroPiece := PieceRoot(h, [], blocksPerPiece, false);
    var padded := pieceRoots;
    var i := |pieceRoots|;
    while i < target
      invariant |pieceRoots| <= i <= target
      invariant padded == pieceRoots + Repeat(i - |pieceRoots|, zeroPiece)
    {
      padded := padded + [zeroPiece];
      i := i + 1;
    }
    root := Root(h, padded);
  }

  // ---------- two-stage hashing is one big tree ----------

  /** The `size`-sized consecutive pieces of `s`, the last one possibly short. */
  function Chunks<T>(s: seq<T>, size: nat): (cs: seq<seq<T>>)
    requires size > 0
    decreases |s|
  {
    if |s| == 0 then []
    else if |s| <= size then [s]
    else [s[..size]] + Chunks(s[size..], size)
  }

  lemma {:induction false} ChunksUnfold<T>(s: seq<T>, size: nat)
    requires size > 0 && |s| > 0
    ensures Chunks(s, size) == [s[..Min(size, |s|)]] + Chunks(s[Min(size, |s|)..], size)
  {
    if |s| <= size {
      assert s[..|s|] == s;
    }
  }

  lemma {:induction false} ChunksCount<T>(s: seq<T>, size: nat)
    requires size > 0
    ensures |Chunks(s, size)| == (|s| + size - 1) / size
    decreases |s|
  {
    if |s| == 0 {
      DivModUnique(size - 1, size, 0, size - 1);
    } else if |s| <= size {
      DivModUnique(|s| + size - 1, size, 1, |s| - 1);
    } else {
      ChunksCount(s[size..], size);
      var q := (|s| - 1) / size;
      DivModUnique(|s| + size - 1, size, q + 1, (|s| - 1) % size);
    }
  }

  lemma {:induction false} ChunkAt<T>(s: seq<T>, size: nat, i: nat)
    requires size > 0 && i < |Chunks(s, size)|
    ensures i * size < |s|
    ensures Chunks(s, size)[i] == s[i * size..Min((i + 1) * size, |s|)]
    decreases |s|
  {
    if |s| > size && i > 0 {
      ChunkAt(s[size..], size, i - 1);
      assert (i - 1) * size + size == i * size;
    }
  }

  function RootsOfChunks(h: Sha256, cs: seq<seq<Hash>>, blocksPerPiece: nat): (roots: seq<Hash>)
    requires IsPow2(blocksPerPiece)
    ensures |roots| == |cs|
  {
    if cs == [] then []
    else [PieceRootOf(h, cs[0], blocksPerPiece, false)] + RootsOfChunks(h, cs[1..], blocksPerPiece)
  }

  function PieceRootsOf(h: Sha256, leaves: seq<Hash>, blocksPerPiece: nat): (roots: seq<Hash>)
    requires IsPow2(blocksPerPiece)
  {
    RootsOfChunks(h, Chunks(leaves, blocksPerPiece), blocksPerPiece)
  }

  predicate Uniform<T>(blocks: seq<seq<T>>, m: nat) {
    forall i :: 0 <= i < |blocks| ==> |blocks[i]| == m
  }

  function Flatten<T>(blocks: seq<seq<T>>): (s: seq<T>) {
    if blocks == [] then [] else blocks[0] + Flatten(blocks[1..])
  }

  lemma {:induction false} FlattenAppend<T>(a: seq<seq<T>>, b: seq<seq<T>>)
    ensures Flatten(a + b) == Flatten(a) + Flatten(b)
  {
    if a == [] {
      assert a + b == b;
    } else {
      FlattenAppend(a[1..], b);
      assert (a + b)[1..] == a[1..] + b && (a + b)[0] == a[0];
      assert a[0] + (Flatten(a[1..]) + Flatten(b)) == (a[0] + Flatten(a[1..])) + Flatten(b);
    }
  }

  lemma {:induction false} FlattenLength<T>(blocks: seq<seq<T>>, m: nat)
    requires Uniform(blocks, m)
    ensures |Flatten(blocks)| == m * |blocks|
  {
    if blocks != [] {
      FlattenLength(blocks[1..], m);
      assert m * |blocks| == m + m * (|blocks| - 1);
    }
  }

  function BlockRoots(h: Sha256, blocks: seq<seq<Hash>>, m: nat): (roots: seq<Hash>)
    requires IsPow2(m) && Uniform(blocks, m)
    ensures |roots| == |blocks|
  {
    if blocks == [] then [] else [RootOf(h, blocks[0])] + BlockRoots(h, blocks[1..], m)
  }

  lemma {:induction false} BlockRootsAppend(h: Sha256, a: seq<seq<Hash>>, b: seq<seq<Hash>>, m: nat)
    requires IsPow2(m) && Uniform(a, m) && Uniform(b, m)
    ensures BlockRoots(h, a + b, m) == BlockRoots(h, a, m) + BlockRoots(h, b, m)
  {
    if a == [] {
      assert a + b == b;
    } else {
      BlockRootsAppend(h, a[1..], b, m);
      assert (a + b)[1..] == a[1..] + b;
    }
  }

  lemma {:induction false} TreeOfConcat(h: Sha256, a: seq<Hash>, b: seq<Hash>)
    requires |a| == |b| && IsPow2(|a|)
    ensures IsPow2(|a + b|) && TreeRoot(h, a + b) == Combine(h, TreeRoot(h, a), TreeRoot(h, b))
  {
    assert (a + b)[..|a|] == a && (a + b)[|a|..] == b;
  }

  /** The tree over equal blocks laid end to end is the tree over the blocks' own roots. */
  lemma {:induction false} TreeOfBlocks(h: Sha256, blocks: seq<seq<Hash>>, m: nat)
    requires IsPow2(m) && IsPow2(|blocks|) && Uniform(blocks, m)
    ensures IsPow2(|Flatten(blocks)|)
    ensures TreeRoot(h, Flatten(blocks)) == TreeRoot(h, BlockRoots(h, blocks, m))
    decreases |blocks|
  {
    if |blocks| == 1 {
      LevelsBuildTheTree(h, blocks[0]);
      assert Flatten(blocks) == blocks[0];
    } else {
      var l, r := blocks[..|blocks| / 2], blocks[|blocks| / 2..];
      assert blocks == l + r;
      TreeOfBlocks(h, l, m);
      TreeOfBlocks(h, r, m);
      FlattenAppend(l, r);
      BlockRootsAppend(h, l, r, m);
      FlattenLength(l, m);
      FlattenLength(r, m);
      TreeOfConcat(h, Flatten(l), Flatten(r));
      TreeOfConcat(h, BlockRoots(h, l, m), BlockRoots(h, r, m));
    }
  }

  /** The file's pieces, each padded to `m` leaves, followed by zero pieces up to `k` in all. */
  function PaddedPieces(leaves: seq<Hash>, m: nat, k: nat): (blocks: seq<seq<Hash>>)
    ensures |blocks| == k && Uniform(blocks, m)
    decreases k
  {
    if k == 0 then []
    else
      var n := Min(m, |leaves|);
      [PadLeaves(leaves[..n], m)] + PaddedPieces(leaves[n..], m, k - 1)
  }

  /** Laid end to end they are the file's leaves padded with zero hashes. */
  lemma {:induction false} PaddedPiecesFlatten(leaves: seq<Hash>, m: nat, k: nat)
    requires m > 0 && |Chunks(leaves, m)| <= k
    ensures |leaves| <= |Flatten(PaddedPieces(leaves, m, k))|
    ensures Flatten(PaddedPieces(leaves, m, k)) == PadLeaves(leaves, |Flatten(PaddedPieces(leaves, m, k))|)
    decreases k
  {
    if k > 0 {
      var n := Min(m, |leaves|);
      assert |Chunks(leaves[n..], m)| <= k - 1;
      PaddedPiecesFlatten(leaves[n..], m, k - 1);
    }
  }

  lemma {:induction false} PadCons(x: Hash, t: seq<Hash>, k: nat, filler: Hash)
    requires |t| < k
    ensures PadWith([x] + t, k, filler) == [x] + PadWith(t, k - 1, filler)
    ensures PadWith([], k, filler) == [filler] + PadWith([], k - 1, filler)
  {
  }

  /** Their roots are the padded list that FileRoot combines. */
  lemma {:induction false} PaddedPiecesRoots(h: Sha256, leaves: seq<Hash>, m: nat, k: nat)
    requires IsPow2(m) && |Chunks(leaves, m)| <= k
    ensures BlockRoots(h, PaddedPieces(leaves, m, k), m)
         == PadWith(PieceRootsOf(h, leaves, m), k, ZeroPiece(h, m))
    decreases k
  {
    hide RootOf, NextPow2Of;
    if k > 0 {
      var n := Min(m, |leaves|);
      var first, rest := leaves[..n], leaves[n..];
      var root := PieceRootOf(h, first, m, false);
      if |leaves| == 0 {
        assert rest == leaves == first == [];
        PaddedPiecesRoots(h, rest, m, k - 1);
        PadCons(root, [], k, ZeroPiece(h, m));
      } else {
        ChunksUnfold(leaves, m);
        PaddedPiecesRoots(h, rest, m, k - 1);
        PadCons(root, PieceRootsOf(h, rest, m), k, ZeroPiece(h, m));
      }
    }
  }

  /**
   * BEP 52's two-stage hash: the root over the pieces' own roots, padded with zero pieces, is the
   * root of the single tree over the whole file's leaves, padded with zero hashes.
   */
  lemma {:induction false} TwoStageIsOneTree(h: Sha256, leaves: seq<Hash>, blocksPerPiece: nat)
    requires IsPow2(blocksPerPiece)
    ensures var k := NextPow2Of(|Chunks(leaves, blocksPerPiece)|);
            0 <= blocksPerPiece * k && IsPow2(blocksPerPiece * k) &&
            FileRootOf(h, PieceRootsOf(h, leaves, blocksPerPiece), blocksPerPiece)
              == RootOf(h, PadLeaves(leaves, blocksPerPiece * k))
  {
    var m := blocksPerPiece;
    var k := NextPow2Of(|Chunks(leaves, m)|);
    var blocks := PaddedPieces(leaves, m, k);
    PaddedPiecesFlatten(leaves, m, k);
    PaddedPiecesRoots(h, leaves, m, k);
    FlattenLength(blocks, m);
    TreeOfBlocks(h, blocks, m);
    LevelsBuildTheTree(h, Flatten(blocks));
    LevelsBuildTheTree(h, BlockRoots(h, blocks, m));
  }

  /** A file of one piece is hashed as one tree padded only to the next power of two. */
  lemma {:induction false} SolePieceIsOneTree(h: Sha256, leaves: seq<Hash>, blocksPerPiece: nat)
    requires IsPow2(blocksPerPiece)
    ensures FileRootOf(h, [PieceRootOf(h, leaves, blocksPerPiece, true)], blocksPerPiece)
         == RootOf(h, PadLeaves(leaves, NextPow2Of(|leaves|)))
  {
  }

  /** Left before right, level by level. */
  lemma {:induction false} RootOfFour(h: Sha256, a: Hash, b: Hash, c: Hash, d: Hash)
    ensures IsPow2(|[a, b, c, d]|) && RootOf(h, [a, b, c, d]) == h.node(h.node(a, b), h.node(c, d))
    ensures IsSha256(h) ==> h.node(a, b) == h.leaf(a.bytes + b.bytes)
  {
    assert IsPow2(1) && IsPow2(2);
    assert [a, b, c, d][2..] == [c, d];
    assert LevelUp(h, [c, d]) == [h.node(c, d)];
    var next := [h.node(a, b), h.node(c, d)];
    assert LevelUp(h, [a, b, c, d]) == next;
    assert next[2..] == [];
    assert LevelUp(h, next) == [h.node(next[0], next[1])];
    assert RootOf(h, next) == RootOf(h, [h.node(next[0], next[1])]);
    assert |[a, b, c, d]| == 4 && IsPow2(4);
    assert RootOf(h, [a, b, c, d]) == RootOf(h, next);
  }

  /** Leaves are padded with digests of 32 zero bytes. */
  lemma {:induction false} PaddingIsZero(leaves: seq<Hash>, n: nat, i: nat)
    requires |leaves| <= n && i < n
    ensures PadLeaves(leaves, n)[i] == if i < |leaves| then leaves[i] else Hash(seq(32, k => 0))
  {
    if i >= |leaves| {
      RepeatedAt(n - |leaves|, ZERO_HASH, i - |leaves|);
    }
  }

  lemma {:induction false} RepeatedAt(n: nat, x: Hash, i: nat)
    requires i < n
    ensures Repeat(n, x)[i] == x
  {
    if i > 0 {
      RepeatedAt(n - 1, x, i - 1);
    }
  }
}
