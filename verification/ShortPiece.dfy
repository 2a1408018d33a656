/** Fewer bytes than a piece has: when the v2 check takes them all the same. */
module ShortPiece {
  import opened Bytes
  import opened Merkle
  import opened HashFile
  import opened Create
  import opened Geometry
  import opened MetaInfo
  import opened BuiltTree
  import opened Verify

  /** Inputs that SHA-256 is trusted not to have: two with one digest, or one whose digest is all zeros. */
  datatype Break = Clash(c: Collision) | ZeroBlock(x: seq<byte>)

  ghost predicate Breaks(h: Sha256, b: Break) {
    match b
    case Clash(c) => Collides(h, c)
    case ZeroBlock(x) => h.leaf(x) == ZERO_HASH
  }

  /** The two digests under the root of a tree with leaves of its own size. */
  function TopPair(h: Sha256, level: seq<Hash>): (pair: seq<byte>)
    requires IsPow2(|level|) && |level| > 1
  {
    RootOf(h, level[..|level| / 2]).bytes + RootOf(h, level[|level| / 2..]).bytes
  }

  /** a is the one block that hashes to the root of b's tree because it spells out the pair under that root. */
  predicate IsTwin(h: Sha256, a: seq<byte>, b: seq<byte>) {
    var leaves := LeavesOf(h, b);
    |leaves| > 1 && a == TopPair(h, PadLeaves(leaves, NextPow2Of(|leaves|)))
  }

  lemma {:induction false} TopPairRoot(h: Sha256, level: seq<Hash>)
    requires IsSha256(h) && IsPow2(|level|) && |level| > 1 && forall i :: 0 <= i < |level| ==> Sized(level[i])
    ensures RootOf(h, level) == h.leaf(TopPair(h, level)) && |TopPair(h, level)| == 2 * DIGEST_SIZE
    ensures RootOf(h, level) == h.node(RootOf(h, level[..|level| / 2]), RootOf(h, level[|level| / 2..]))
  {
    var n := |level| / 2;
    assert level == level[..n] + level[n..];
    RootOfHalves(h, level[..n], level[n..]);
    RootsSized(h, level[..n]);
    RootsSized(h, level[n..]);
  }

  /** Two trees of different heights with one root, the leftmost leaf of the lower one a block that is not two digests. */
  lemma {:induction false} UnequalTrees(h: Sha256, s: seq<Hash>, t: seq<Hash>, x: seq<byte>) returns (c: Collision)
    requires IsSha256(h) && IsPow2(|s|) && IsPow2(|t|) && |s| < |t| && RootOf(h, s) == RootOf(h, t)
    requires (forall i :: 0 <= i < |s| ==> Sized(s[i])) && forall i :: 0 <= i < |t| ==> Sized(t[i])
    requires s[0] == h.leaf(x) && (|s| == 1 ==> x != TopPair(h, t)) && (|s| > 1 ==> |x| != 2 * DIGEST_SIZE)
    ensures Collides(h, c)
    decreases |s|
  {
    hide RootOf, TopPair, IsPow2;
    AtLeastOne(|s|);
    TopPairRoot(h, t);
    Halves(t);
    if |s| == 1 {
      LoneRoot(h, s);
      c := OfBlocks(x, TopPair(h, t));
    } else {
      TopPairRoot(h, s);
      Halves(s);
      var n, m := |s| / 2, |t| / 2;
      var l, r, l', r' := RootOf(h, s[..n]), RootOf(h, s[n..]), RootOf(h, t[..m]), RootOf(h, t[m..]);
      if (l, r) != (l', r') {
        c := OfNodes(l, r, l', r');
      } else {
        NotThePair(h, t[..m], x);
        c := UnequalTrees(h, s[..n], t[..m], x);
      }
    }
  }

  lemma {:induction false} AtLeastOne(n: int)
    requires IsPow2(n)
    ensures n >= 1
  {
  }

  lemma {:induction false} Halves(s: seq<Hash>)
    requires IsPow2(|s|) && |s| > 1
    ensures |s| % 2 == 0 && IsPow2(|s| / 2) && |s[..|s| / 2]| == |s| / 2 && s[..|s| / 2][0] == s[0]
    ensures (forall i :: 0 <= i < |s| ==> Sized(s[i])) ==> forall i :: 0 <= i < |s| / 2 ==> Sized(s[..|s| / 2][i])
  {
  }

  lemma {:induction false} LoneRoot(h: Sha256, s: seq<Hash>)
    requires |s| == 1
    ensures IsPow2(|s|) && RootOf(h, s) == s[0]
  {
  }

  lemma {:induction false} NotThePair(h: Sha256, t: seq<Hash>, x: seq<byte>)
    requires IsSha256(h) && IsPow2(|t|) && |t| > 1 && |x| != 2 * DIGEST_SIZE && forall i :: 0 <= i < |t| ==> Sized(t[i])
    ensures x != TopPair(h, t)
  {
    TopPairRoot(h, t);
  }

  lemma {:induction false} LeavesSized(h: Sha256, blocks: seq<seq<byte>>)
    requires IsSha256(h)
    ensures |HashAll(h, blocks)| == |blocks|
    ensures forall i :: 0 <= i < |blocks| ==> HashAll(h, blocks)[i] == h.leaf(blocks[i]) && Sized(HashAll(h, blocks)[i])
  {
    if blocks != [] {
      LeavesSized(h, blocks[1..]);
    }
  }

  /** Two levels of one size with the same root, over the leaves of two different contents. */
  lemma {:induction false} EqualHeights(h: Sha256, a: seq<byte>, b: seq<byte>, target: nat) returns (w: Break)
    requires IsSha256(h) && a != b && IsPow2(target) && |LeavesOf(h, a)| <= |LeavesOf(h, b)| <= target
    requires RootOf(h, PadLeaves(LeavesOf(h, a), target)) == RootOf(h, PadLeaves(LeavesOf(h, b), target))
    ensures Breaks(h, w)
  {
    hide RootOf, Chunks;
    var x, y := LeavesOf(h, a), LeavesOf(h, b);
    var s, t := PadLeaves(x, target), PadLeaves(y, target);
    if s != t {
      w := Clash(TreeCollision(h, s, t));
    } else if |x| < |y| {
      LeavesSized(h, Chunks(b, BLOCK_SIZE));
      assert t[|x|] == y[|x|] && s[|x|] == ZERO_HASH;
      w := ZeroBlock(Chunks(b, BLOCK_SIZE)[|x|]);
    } else {
      assert s[..|x|] == x && t[..|y|] == y;
      w := Clash(BlockCollision(h, a, b));
    }
  }

  lemma {:induction false} FewerLeaves(h: Sha256, a: seq<byte>, b: seq<byte>, bpp: nat)
    requires IsSha256(h) && 0 < |a| < |b| <= BLOCK_SIZE * bpp
    ensures 0 < |LeavesOf(h, a)| <= |LeavesOf(h, b)| <= bpp
    ensures LeavesOf(h, a)[0] == h.leaf(a[..Min(BLOCK_SIZE, |a|)])
    ensures |LeavesOf(h, a)| > 1 ==> |a| > BLOCK_SIZE
    ensures |LeavesOf(h, a)| == 1 ==> |a| <= BLOCK_SIZE
  {
    hide Chunks;
    ChunksCount(a, BLOCK_SIZE);
    ChunksCount(b, BLOCK_SIZE);
    ChunksUnfold(a, BLOCK_SIZE);
    LeavesSized(h, Chunks(a, BLOCK_SIZE));
    LeavesSized(h, Chunks(b, BLOCK_SIZE));
  }

  lemma {:induction false} NextPow2Grows(m: nat, n: nat)
    requires m <= n
    ensures NextPow2Of(m) <= NextPow2Of(n)
  {
    NextPow2IsLeast(m, NextPow2Of(n));
  }

  lemma {:induction false} PaddedSized(h: Sha256, data: seq<byte>, target: nat)
    requires IsSha256(h)
    ensures forall i :: 0 <= i < target ==> Sized(PadLeaves(LeavesOf(h, data), target)[i])
  {
    LeavesSized(h, Chunks(data, BLOCK_SIZE));
  }

  /** Fewer bytes than a piece has, and the same piece root: the twin of a file's only piece, or SHA-256 is broken. */
  lemma {:induction false} ShorterSameRoot(h: Sha256, a: seq<byte>, b: seq<byte>, bpp: nat, sole: bool) returns (w: Option<Break>)
    requires IsSha256(h) && IsPow2(bpp) && 0 < |a| < |b| <= BLOCK_SIZE * bpp
    requires PieceRootOf(h, LeavesOf(h, a), bpp, sole) == PieceRootOf(h, LeavesOf(h, b), bpp, sole)
    ensures match w
            case None => sole && IsTwin(h, a, b)
            case Some(x) => Breaks(h, x)
  {
    hide RootOf, LeavesOf, NextPow2Of, TopPair;
    FewerLeaves(h, a, b, bpp);
    var x, y := LeavesOf(h, a), LeavesOf(h, b);
    var m, n := if sole then NextPow2Of(|x|) else bpp, if sole then NextPow2Of(|y|) else bpp;
    if m == n {
      var found := EqualHeights(h, a, b, n);
      w := Some(found);
    } else {
      NextPow2Grows(|x|, |y|);
      var s, t := PadLeaves(x, m), PadLeaves(y, n);
      PaddedSized(h, a, m);
      PaddedSized(h, b, n);
      OneLeaf(|x|);
      OneLeaf(|y|);
      assert s[0] == x[0];
      if m == 1 && a == TopPair(h, t) {
        return None;
      }
      assert m == 1 ==> a[..Min(BLOCK_SIZE, |a|)] == a;
      var c := UnequalTrees(h, s, t, a[..Min(BLOCK_SIZE, |a|)]);
      w := Some(Clash(c));
    }
  }

  lemma {:induction false} OneLeaf(n: nat)
    requires n > 0
    ensures NextPow2Of(n) == 1 <==> n == 1
  {
  }

  /** The twin does pass for the root. */
  lemma {:induction false} TwinHasTheRoot(h: Sha256, a: seq<byte>, b: seq<byte>, bpp: nat)
    requires IsSha256(h) && IsPow2(bpp) && IsTwin(h, a, b)
    ensures |a| == 2 * DIGEST_SIZE < |b|
    ensures PieceRootOf(h, LeavesOf(h, a), bpp, true) == PieceRootOf(h, LeavesOf(h, b), bpp, true)
  {
    hide TopPair, RootOf;
    var leaves := LeavesOf(h, b);
    var n := NextPow2Of(|leaves|);
    PaddedSized(h, b, n);
    TopPairRoot(h, PadLeaves(leaves, n));
    ChunksCount(b, BLOCK_SIZE);
    LeavesSized(h, Chunks(b, BLOCK_SIZE));
    ChunksUnfold(a, BLOCK_SIZE);
    assert a[..|a|] == a && Chunks(a[|a|..], BLOCK_SIZE) == [];
    assert Chunks(a, BLOCK_SIZE) == [a];
    assert LeavesOf(h, a) == [h.leaf(a)];
    LoneRoot(h, [h.leaf(a)]);
    assert PadLeaves([h.leaf(a)], 1) == [h.leaf(a)];
  }

  /** The v2 check on fewer bytes than the piece has: it passes exactly for the twin of a file's only piece, or SHA-256 is broken. */
  lemma {:induction false} ShortVerdict(h: Sha256, mi: MetaInfo, f: CreateFile, index: nat, p: seq<byte>) returns (w: Option<Break>)
    requires IsSha256(h) && Geometric(mi) && index < TotalPieces(mi.v2Files, mi.pieceLength)
    requires Describes(h, mi, FileOf(mi.v2Files, mi.pieceLength, index), f)
    requires 0 < |p| < PieceLen(mi.v2Files, mi.pieceLength, index)
    ensures match w
            case None => V2Verdict(h, mi, index, p) == (f.length <= mi.pieceLength && IsTwin(h, p, PieceBytes(mi, f, index)))
            case Some(x) => Breaks(h, x)
  {
    hide PiecesIn, FirstPiece, FileBelow, PieceRootOf, LeavesOf, IsTwin, LayerEntryIs;
    var bytes, bpp, sole := PieceBytes(mi, f, index), mi.pieceLength / BLOCK_SIZE, f.length <= mi.pieceLength;
    PieceInsideFile(mi.v2Files, mi.pieceLength, index);
    ExpectedRoot(h, mi, f, index, p);
    assert p[..V2Length(mi, index, p)] == p;
    w := None;
    if V2Verdict(h, mi, index, p) {
      w := ShorterSameRoot(h, p, bytes, bpp, sole);
    } else if sole && IsTwin(h, p, bytes) {
      TwinHasTheRoot(h, p, bytes, bpp);
    }
  }
}
