/** Checking pieces against a torrent: verifyPiece and verifyPieceV2 of internal/storage/verify.go. */
module Verify {
  import opened Bytes
  import opened Merkle
  import opened HashFile
  import opened Create
  import opened Geometry
  import opened MetaInfo
  import opened BuiltParses
  import opened BuiltTree

  // ---------- verifyPieceV2 ----------

  predicate Geometric(mi: MetaInfo) {
    mi.pieceLength > 0 && IsPow2(mi.pieceLength / BLOCK_SIZE) && mi.pieceLength == BLOCK_SIZE * (mi.pieceLength / BLOCK_SIZE)
  }

  /** The length of the piece's own v2 content within a buffer that may carry trailing padding. */
  function V2Length(mi: MetaInfo, index: nat, p: seq<byte>): (n: nat)
    requires Geometric(mi) && index < TotalPieces(mi.v2Files, mi.pieceLength)
    ensures n <= |p|
  {
    hide PiecesIn, FirstPiece;
    PieceInsideFile(mi.v2Files, mi.pieceLength, index);
    Min(PieceLen(mi.v2Files, mi.pieceLength, index), |p|)
  }

  /** Entry j of a file's layer bytes. */
  predicate LayerEntryIs(layers: map<Hash, seq<byte>>, root: Hash, j: nat, d: Hash) {
    root in layers && DIGEST_SIZE * j + DIGEST_SIZE <= |layers[root]|
    && layers[root][DIGEST_SIZE * j..DIGEST_SIZE * j + DIGEST_SIZE] == d.bytes
  }

  predicate V2Verdict(h: Sha256, mi: MetaInfo, index: int, p: seq<byte>)
    requires Geometric(mi)
  {
    0 <= index < TotalPieces(mi.v2Files, mi.pieceLength) &&
    var k := FileOf(mi.v2Files, mi.pieceLength, index);
    var f := mi.v2Files[k];
    var sole := f.length <= mi.pieceLength;
    var root := PieceRootOf(h, LeavesOf(h, p[..V2Length(mi, index, p)]), mi.pieceLength / BLOCK_SIZE, sole);
    if sole then root == f.root
    else LayerEntryIs(mi.pieceLayers, f.root, index - FirstPiece(mi.v2Files, mi.pieceLength, k), root)
  }

  method VerifyPieceV2(h: Sha256, mi: MetaInfo, index: int, buf: seq<byte>) returns (ok: bool)
    requires Geometric(mi)
    ensures ok == V2Verdict(h, mi, index, buf)
  {
    hide PiecesIn, FirstPiece, FileOf, Chunks, PieceRootOf, LeavesOf, Scale, RunsOf;
    var runs := BuildV2PieceRuns(mi.v2Files, mi.pieceLength);
    var fileIndex, offsetInFile, found := PieceFile(mi.v2Files, mi.pieceLength, runs, index);
    if !found {
      return false;
    }
    PieceInsideFile(mi.v2Files, mi.pieceLength, index);
    var f := mi.v2Files[fileIndex];
    var blocksPerPiece := mi.pieceLength / BLOCK_SIZE;
    var v2Length := f.length - offsetInFile;
    if v2Length > mi.pieceLength {
      v2Length := mi.pieceLength;
    }
    if v2Length > |buf| {
      v2Length := |buf|;
    }
    var p := buf[..v2Length];
    var leaves := Leaves(h, p);
    var soleFilePiece := f.length <= mi.pieceLength;
    var pieceRoot := PieceRoot(h, leaves, blocksPerPiece, soleFilePiece);
    if soleFilePiece {
      return pieceRoot == f.root;
    }
    if f.root !in mi.pieceLayers {
      return false;
    }
    var layerBytes := mi.pieceLayers[f.root];
    OffsetCountsPieces(index - FirstPiece(mi.v2Files, mi.pieceLength, fileIndex), mi.pieceLength);
    var pieceInFile := offsetInFile / mi.pieceLength;
    var start := pieceInFile * DIGEST_SIZE;
    if start + DIGEST_SIZE > |layerBytes| {
      return false;
    }
    var want := layerBytes[start..start + DIGEST_SIZE];
    ok := pieceRoot.bytes == want;
  }

  lemma {:induction false} OffsetCountsPieces(j: nat, size: nat)
    requires size > 0
    ensures Scale(j, size) / size == j
  {
    ScaleIsProduct(j, size);
    DivModUnique(Scale(j, size), size, j, 0);
  }

  /** The loop over 16 KiB blocks. */
  method Leaves(h: Sha256, p: seq<byte>) returns (leaves: seq<Hash>)
    ensures leaves == LeavesOf(h, p)
  {
    leaves := [];
    var off := 0;
    while off < |p|
      invariant 0 <= off <= |p|
      invariant leaves + LeavesOf(h, p[off..]) == LeavesOf(h, p)
    {
      var end := if off + BLOCK_SIZE > |p| then |p| else off + BLOCK_SIZE;
      ghost var rest := p[off..];
      ChunksUnfold(rest, BLOCK_SIZE);
      assert rest[..end - off] == p[off..end] && rest[end - off..] == p[end..];
      leaves := leaves + [h.leaf(p[off..end])];
      off := end;
    }
  }

  // ---------- every built piece passes ----------

  lemma {:induction false} PieceRootAt(h: Sha256, pieces: seq<seq<byte>>, bpp: nat, sole: bool, j: nat)
    requires IsPow2(bpp) && j < |pieces|
    ensures PieceRoots(h, pieces, bpp, sole)[j] == PieceRootOf(h, LeavesOf(h, pieces[j]), bpp, sole)
  {
    hide PieceRootOf, LeavesOf;
    if j > 0 {
      PieceRootAt(h, pieces[1..], bpp, sole, j - 1);
    }
  }

  lemma {:induction false} BytesAt(hs: seq<Hash>, j: nat)
    requires j < |hs| && forall i :: 0 <= i < |hs| ==> Sized(hs[i])
    ensures |BytesOf(hs)| == DIGEST_SIZE * |hs|
    ensures BytesOf(hs)[DIGEST_SIZE * j..DIGEST_SIZE * j + DIGEST_SIZE] == hs[j].bytes
  {
    LayerRoundTrip(hs);
    if j > 0 {
      BytesAt(hs[1..], j - 1);
      var n := DIGEST_SIZE * (j - 1);
      assert BytesOf(hs)[DIGEST_SIZE * j..DIGEST_SIZE * j + DIGEST_SIZE] == BytesOf(hs[1..])[n..n + DIGEST_SIZE];
    }
  }

  /** File k of the torrent is `f`, with its own piece layer on record when it needs one. */
  ghost predicate Describes(h: Sha256, mi: MetaInfo, k: nat, f: CreateFile)
    requires Geometric(mi)
  {
    var bpp := mi.pieceLength / BLOCK_SIZE;
    && k < |mi.v2Files| && f.Readable() && f.length > 0
    && mi.v2Files[k].length == f.length
    && mi.v2Files[k].root == FileRootOf(h, RootsOf(h, f, mi.pieceLength, bpp), bpp)
    && (f.length > mi.pieceLength ==>
         mi.v2Files[k].root in mi.pieceLayers && mi.pieceLayers[mi.v2Files[k].root] == BytesOf(RootsOf(h, f, mi.pieceLength, bpp)))
  }

  /** The bytes of a global piece: what its file holds at its offset. */
  function PieceBytes(mi: MetaInfo, f: CreateFile, index: nat): (bytes: seq<byte>)
    requires Geometric(mi) && index < TotalPieces(mi.v2Files, mi.pieceLength) && f.Readable()
    requires mi.v2Files[FileOf(mi.v2Files, mi.pieceLength, index)].length == f.length
  {
    hide PiecesIn, FirstPiece;
    PieceInsideFile(mi.v2Files, mi.pieceLength, index);
    var off := OffsetInFile(mi.v2Files, mi.pieceLength, index);
    f.Content()[off..off + PieceLen(mi.v2Files, mi.pieceLength, index)]
  }

  lemma {:induction false} PieceBytesAreChunk(mi: MetaInfo, f: CreateFile, index: nat)
    requires Geometric(mi) && index < TotalPieces(mi.v2Files, mi.pieceLength) && f.Readable()
    requires mi.v2Files[FileOf(mi.v2Files, mi.pieceLength, index)].length == f.length
    ensures var j := index - FirstPiece(mi.v2Files, mi.pieceLength, FileOf(mi.v2Files, mi.pieceLength, index));
            && j < |Chunks(f.Content(), mi.pieceLength)| && PieceBytes(mi, f, index) == Chunks(f.Content(), mi.pieceLength)[j]
  {
    hide FileBelow, Chunks;
    var k := FileOf(mi.v2Files, mi.pieceLength, index);
    var j := index - FirstPiece(mi.v2Files, mi.pieceLength, k);
    RunLength(mi.v2Files, mi.pieceLength, k);
    PieceCount(f.Content(), mi.pieceLength);
    hide PiecesIn, FirstPiece;
    PieceInsideFile(mi.v2Files, mi.pieceLength, index);
    ScaleIsProduct(j, mi.pieceLength);
    NextProduct(j, mi.pieceLength);
    ChunkAt(f.Content(), mi.pieceLength, j);
  }

  lemma {:induction false} NextProduct(j: int, size: int)
    ensures (j + 1) * size == j * size + size
  {
  }

  /** What the verifier compares a piece's root with: the file's own root for that piece. */
  lemma {:induction false} ExpectedRoot(h: Sha256, mi: MetaInfo, f: CreateFile, index: nat, p: seq<byte>)
    requires IsSha256(h) && Geometric(mi) && index < TotalPieces(mi.v2Files, mi.pieceLength)
    requires Describes(h, mi, FileOf(mi.v2Files, mi.pieceLength, index), f)
    ensures var bpp, sole := mi.pieceLength / BLOCK_SIZE, f.length <= mi.pieceLength;
            V2Verdict(h, mi, index, p)
              == (PieceRootOf(h, LeavesOf(h, p[..V2Length(mi, index, p)]), bpp, sole)
                  == PieceRootOf(h, LeavesOf(h, PieceBytes(mi, f, index)), bpp, sole))
  {
    hide PiecesIn, FirstPiece, FileBelow, Chunks, PieceRootOf, LeavesOf, PieceBytes, V2Length;
    var size, bpp := mi.pieceLength, mi.pieceLength / BLOCK_SIZE;
    var k := FileOf(mi.v2Files, size, index);
    var j := index - FirstPiece(mi.v2Files, size, k);
    var sole := f.length <= size;
    var pieces := Chunks(f.Content(), size);
    PieceBytesAreChunk(mi, f, index);
    PieceRootAt(h, pieces, bpp, sole, j);
    PieceRootsSized(h, pieces, bpp, sole);
    if sole {
      SolePieceOnly(f.Content(), size);
      SoleRootIsFileRoot(h, pieces, bpp);
    } else {
      BytesAt(RootsOf(h, f, size, bpp), j);
    }
  }

  lemma {:induction false} SolePieceOnly(content: seq<byte>, size: nat)
    requires 0 < |content| <= size
    ensures Chunks(content, size) == [content]
  {
  }

  lemma {:induction false} SoleRootIsFileRoot(h: Sha256, pieces: seq<seq<byte>>, bpp: nat)
    requires IsPow2(bpp) && |pieces| == 1
    ensures FileRootOf(h, PieceRoots(h, pieces, bpp, true), bpp) == PieceRoots(h, pieces, bpp, true)[0]
  {
  }

  /**
   * A piece passes on its own bytes, whatever follows them in the buffer: the padding a hybrid torrent
   * reads along with it is not hashed.
   */
  lemma {:induction false} OwnBytesVerify(h: Sha256, mi: MetaInfo, f: CreateFile, index: nat, padding: seq<byte>)
    requires IsSha256(h) && Geometric(mi) && index < TotalPieces(mi.v2Files, mi.pieceLength)
    requires Describes(h, mi, FileOf(mi.v2Files, mi.pieceLength, index), f)
    ensures V2Verdict(h, mi, index, PieceBytes(mi, f, index) + padding)
  {
    hide PiecesIn, FirstPiece, FileBelow, PieceRootOf, LeavesOf;
    var bytes := PieceBytes(mi, f, index);
    PieceInsideFile(mi.v2Files, mi.pieceLength, index);
    assert (bytes + padding)[..|bytes|] == bytes;
    ExpectedRoot(h, mi, f, index, bytes + padding);
  }

  // ---------- and nothing else does ----------

  /** Two levels that combine to the same level: a pair of digests with the same combination. */
  function PairCollision(h: Sha256, s: seq<Hash>, t: seq<Hash>): (c: Collision)
    requires |s| == |t| && |s| % 2 == 0 && s != t && LevelUp(h, s) == LevelUp(h, t)
    ensures c.OfNodes? && Collides(h, c)
    decreases |s|
  {
    assert LevelUp(h, s)[0] == LevelUp(h, t)[0] && LevelUp(h, s)[1..] == LevelUp(h, t)[1..];
    if s[0] != t[0] || s[1] != t[1] then OfNodes(s[0], s[1], t[0], t[1])
    else
      assert s == [s[0], s[1]] + s[2..] && t == [t[0], t[1]] + t[2..];
      PairCollision(h, s[2..], t[2..])
  }

  /** Two trees of one size with the same root but different leaves. */
  function TreeCollision(h: Sha256, s: seq<Hash>, t: seq<Hash>): (c: Collision)
    requires |s| == |t| && IsPow2(|s|) && s != t && RootOf(h, s) == RootOf(h, t)
    ensures c.OfNodes? && Collides(h, c)
    decreases |s|
  {
    if |s| == 1 then
      assert false;
      OfBlocks([], [])
    else if LevelUp(h, s) == LevelUp(h, t) then PairCollision(h, s, t)
    else TreeCollision(h, LevelUp(h, s), LevelUp(h, t))
  }

  /** Two contents with the same leaves but different bytes. */
  function BlockCollision(h: Sha256, a: seq<byte>, b: seq<byte>): (c: Collision)
    requires a != b && LeavesOf(h, a) == LeavesOf(h, b)
    ensures c.OfBlocks? && Collides(h, c)
    decreases |a|
  {
    var n, m := Min(BLOCK_SIZE, |a|), Min(BLOCK_SIZE, |b|);
    BothHaveLeaves(h, a, b);
    ChunksUnfold(a, BLOCK_SIZE);
    ChunksUnfold(b, BLOCK_SIZE);
    assert LeavesOf(h, a)[0] == LeavesOf(h, b)[0] && LeavesOf(h, a)[1..] == LeavesOf(h, b)[1..];
    if a[..n] != b[..m] then OfBlocks(a[..n], b[..m])
    else
      assert n == |a[..n]| == |b[..m]| == m;
      assert a == a[..n] + a[n..] && b == b[..n] + b[n..];
      BlockCollision(h, a[n..], b[n..])
  }

  lemma {:induction false} BothHaveLeaves(h: Sha256, a: seq<byte>, b: seq<byte>)
    requires a != b && LeavesOf(h, a) == LeavesOf(h, b)
    ensures |a| > 0 && |b| > 0
  {
    if |a| > 0 {
      ChunksUnfold(a, BLOCK_SIZE);
    }
    if |b| > 0 {
      ChunksUnfold(b, BLOCK_SIZE);
    }
  }

  /** Two pieces of one length with the same piece root: the collision they contain. */
  function PieceCollision(h: Sha256, a: seq<byte>, b: seq<byte>, bpp: nat, sole: bool): (c: Collision)
    requires IsPow2(bpp) && |a| == |b| <= BLOCK_SIZE * bpp && a != b
    requires PieceRootOf(h, LeavesOf(h, a), bpp, sole) == PieceRootOf(h, LeavesOf(h, b), bpp, sole)
    ensures Collides(h, c)
  {
    SameLeafCount(h, a, b, bpp);
    var x, y := LeavesOf(h, a), LeavesOf(h, b);
    var target := if sole then NextPow2Of(|x|) else bpp;
    if x == y then BlockCollision(h, a, b)
    else
      assert PadLeaves(x, target)[..|x|] == x && PadLeaves(y, target)[..|y|] == y;
      TreeCollision(h, PadLeaves(x, target), PadLeaves(y, target))
  }

  lemma {:induction false} SameLeafCount(h: Sha256, a: seq<byte>, b: seq<byte>, bpp: nat)
    requires |a| == |b| <= BLOCK_SIZE * bpp
    ensures |LeavesOf(h, a)| == |LeavesOf(h, b)| <= bpp
  {
    ChunksCount(a, BLOCK_SIZE);
    ChunksCount(b, BLOCK_SIZE);
  }

  /** Any buffer that passes starts with the piece's own bytes, or gives a SHA-256 collision. */
  lemma {:induction false} OnlyOwnBytesVerify(h: Sha256, mi: MetaInfo, f: CreateFile, index: nat, p: seq<byte>) returns (c: Option<Collision>)
    requires IsSha256(h) && Geometric(mi) && index < TotalPieces(mi.v2Files, mi.pieceLength)
    requires Describes(h, mi, FileOf(mi.v2Files, mi.pieceLength, index), f)
    requires |p| >= PieceLen(mi.v2Files, mi.pieceLength, index) && V2Verdict(h, mi, index, p)
    ensures match c
            case None => PieceBytes(mi, f, index) <= p
            case Some(clash) => Collides(h, clash)
  {
    hide PiecesIn, FirstPiece, FileBelow, PieceRootOf, LeavesOf;
    var bytes, mine := PieceBytes(mi, f, index), p[..V2Length(mi, index, p)];
    PieceInsideFile(mi.v2Files, mi.pieceLength, index);
    ExpectedRoot(h, mi, f, index, p);
    c := if mine == bytes then None
         else Some(PieceCollision(h, mine, bytes, mi.pieceLength / BLOCK_SIZE, f.length <= mi.pieceLength));
  }
}
