/** Hashing one file under v1 and v2 at once: hashOneFileV2 of internal/metainfo/create_v2.go. */
module HashFile {
  import opened Bytes
  import opened Merkle

  // ---------- specification ----------

  function HashAll(h: Sha256, blocks: seq<seq<byte>>): (leaves: seq<Hash>)
    ensures |leaves| == |blocks|
  {
    if blocks == [] then [] else [h.leaf(blocks[0])] + HashAll(h, blocks[1..])
  }

  /** The merkle leaves of some content: the digests of its 16 KiB blocks. */
  function LeavesOf(h: Sha256, data: seq<byte>): (leaves: seq<Hash>) {
    HashAll(h, Chunks(data, BLOCK_SIZE))
  }

  function PieceRoots(h: Sha256, pieces: seq<seq<byte>>, blocksPerPiece: nat, sole: bool): (roots: seq<Hash>)
    requires IsPow2(blocksPerPiece)
    ensures |roots| == |pieces|
  {
    if pieces == [] then []
    else [PieceRootOf(h, LeavesOf(h, pieces[0]), blocksPerPiece, sole)] + PieceRoots(h, pieces[1..], blocksPerPiece, sole)
  }

  function Sha1s(s1: Sha1, pieces: seq<seq<byte>>): (digests: seq<byte>)
  {
    if pieces == [] then [] else s1(pieces[0]).bytes + Sha1s(s1, pieces[1..])
  }

  /** The v1 pieces of a byte stream: the concatenated SHA-1 of its pieceLength-sized pieces. */
  function V1PiecesOf(s1: Sha1, stream: seq<byte>, pieceLength: nat): (digests: seq<byte>)
    requires pieceLength > 0
  {
    Sha1s(s1, Chunks(stream, pieceLength))
  }

  /** The v1 hasher left open when a file ends mid-piece: what it was fed, and what is missing. */
  datatype Pending = NoPending | Pending(fed: seq<byte>, residue: int)

  datatype FileHash = FileHash(root: Hash, layerBytes: seq<byte>, numPieces: nat, v1Pieces: seq<byte>, pending: Pending)

  function BytesOf(hs: seq<Hash>): (bytes: seq<byte>)
  {
    if hs == [] then [] else hs[0].bytes + BytesOf(hs[1..])
  }

  /** The pieces of a file that reach full length: all, or all but the last. */
  function FullPieces(pieces: seq<seq<byte>>, pieceLength: nat): (full: seq<seq<byte>>) {
    if pieces != [] && |pieces[|pieces| - 1]| < pieceLength then pieces[..|pieces| - 1] else pieces
  }

  /** The short last piece, or nothing. */
  function Tail(pieces: seq<seq<byte>>, pieceLength: nat): (tail: seq<byte>) {
    if pieces != [] && |pieces[|pieces| - 1]| < pieceLength then pieces[|pieces| - 1] else []
  }

  function FileRootsOf(h: Sha256, data: seq<byte>, pieceLength: nat, blocksPerPiece: nat): (roots: seq<Hash>)
    requires pieceLength > 0 && IsPow2(blocksPerPiece)
  {
    PieceRoots(h, Chunks(data, pieceLength), blocksPerPiece, |data| <= pieceLength)
  }

  function PendingOf(pieces: seq<seq<byte>>, pieceLength: nat): (p: Pending) {
    var tail := Tail(pieces, pieceLength);
    if tail == [] then NoPending else Pending(tail, pieceLength - |tail|)
  }

  function FileHashOf(h: Sha256, s1: Sha1, data: seq<byte>, pieceLength: nat, blocksPerPiece: nat, v1: bool): (r: FileHash)
    requires pieceLength > 0 && IsPow2(blocksPerPiece)
  {
    var pieces := Chunks(data, pieceLength);
    var roots := FileRootsOf(h, data, pieceLength, blocksPerPiece);
    FileHash(FileRootOf(h, roots, blocksPerPiece), BytesOf(roots), |roots|,
             if v1 then Sha1s(s1, FullPieces(pieces, pieceLength)) else [],
             if v1 then PendingOf(pieces, pieceLength) else NoPending)
  }

  // ---------- lemmas about pieces laid end to end ----------

  /** Full pieces followed by a last short one are exactly the chunks of their concatenation. */
  lemma {:induction false} ChunksOfFull<T>(full: seq<seq<T>>, tail: seq<T>, size: nat)
    requires size > 0 && Uniform(full, size) && |tail| <= size
    ensures Chunks(Flatten(full) + tail, size) == full + (if tail == [] then [] else [tail])
  {
    var s := Flatten(full) + tail;
    if full == [] {
      assert s == tail;
    } else {
      var rest := Flatten(full[1..]) + tail;
      ChunksOfFull(full[1..], tail, size);
      assert s == full[0] + rest;
      ChunksUnfold(s, size);
      if |s| <= size {
        assert rest == [] && full[1..] == [];
        assert s == full[0];
      } else {
        assert s[..size] == full[0] && s[size..] == rest;
      }
      assert full == [full[0]] + full[1..];
    }
  }

  lemma {:induction false} FlattenSnoc<T>(ps: seq<seq<T>>, p: seq<T>)
    ensures Flatten(ps + [p]) == Flatten(ps) + p
  {
    FlattenAppend(ps, [p]);
    assert Flatten([p]) == p + Flatten([p][1..]);
  }

  lemma {:induction false} PieceRootsAppend(h: Sha256, a: seq<seq<byte>>, b: seq<seq<byte>>, bpp: nat, sole: bool)
    requires IsPow2(bpp)
    ensures PieceRoots(h, a + b, bpp, sole) == PieceRoots(h, a, bpp, sole) + PieceRoots(h, b, bpp, sole)
  {
    hide PieceRootOf;
    if a == [] {
      assert a + b == b;
    } else {
      PieceRootsAppend(h, a[1..], b, bpp, sole);
      assert (a + b)[1..] == a[1..] + b;
    }
  }

  lemma {:induction false} Sha1sAppend(s1: Sha1, a: seq<seq<byte>>, b: seq<seq<byte>>)
    ensures Sha1s(s1, a + b) == Sha1s(s1, a) + Sha1s(s1, b)
  {
    if a == [] {
      assert a + b == b;
    } else {
      Sha1sAppend(s1, a[1..], b);
      assert (a + b)[1..] == a[1..] + b && (a + b)[0] == a[0];
      var x := s1(a[0]).bytes;
      assert x + (Sha1s(s1, a[1..]) + Sha1s(s1, b)) == (x + Sha1s(s1, a[1..])) + Sha1s(s1, b);
    }
  }

  // ---------- the loop ----------

  /** One 16 KiB block is appended to the leaves of the piece under way. */
  lemma {:induction false} LeavesExtend(h: Sha256, blocks: seq<seq<byte>>, block: seq<byte>)
    requires Uniform(blocks, BLOCK_SIZE) && 0 < |block| <= BLOCK_SIZE
    ensures LeavesOf(h, Flatten(blocks) + block) == HashAll(h, blocks) + [h.leaf(block)]
  {
    ChunksOfFull(blocks, block, BLOCK_SIZE);
    HashAllSnoc(h, blocks, block);
  }

  /** Where the loop is: `full` pieces closed, then a short `last` one at the end of the file, or the
      `blocks` of the piece under way. */
  ghost predicate At(src: seq<byte>, length: nat, remaining: int, bpp: nat,
                     full: seq<seq<byte>>, last: seq<byte>, blocks: seq<seq<byte>>)
  {
    && 0 <= remaining <= length && length - remaining <= |src|
    && Uniform(full, BLOCK_SIZE * bpp) && Uniform(blocks, BLOCK_SIZE)
    && src[..length - remaining] == Flatten(full) + last + Flatten(blocks)
    && |Flatten(blocks)| == BLOCK_SIZE * |blocks| && |blocks| < bpp
    && |last| < BLOCK_SIZE * bpp
    && (remaining == 0 ==> blocks == [])
    && (remaining > 0 ==> last == [])
    && (remaining > 0 && full != [] ==> length > BLOCK_SIZE * bpp)
  }

  function Closed(full: seq<seq<byte>>, last: seq<byte>): (pieces: seq<seq<byte>>) {
    full + (if last == [] then [] else [last])
  }

  lemma {:induction false} NextBlock(src: seq<byte>, length: nat, remaining: int, bpp: nat, full: seq<seq<byte>>, blocks: seq<seq<byte>>, n: nat)
    requires At(src, length, remaining, bpp, full, [], blocks) && remaining > 0
    requires n == Min(BLOCK_SIZE, remaining) && length - remaining + n <= |src|
    ensures var buf := src[length - remaining..length - remaining + n];
            var piece := Flatten(blocks) + buf;
            && Flatten(blocks + [buf]) == piece
            && 0 < |piece| <= BLOCK_SIZE * bpp && Uniform(blocks, BLOCK_SIZE)
            && src[..length - remaining + n] == Flatten(full) + piece
  {
    var start := length - remaining;
    var buf := src[start..start + n];
    FlattenSnoc(blocks, buf);
    assert src[..start + n] == src[..start] + buf;
    assert Flatten(full) + [] + Flatten(blocks) + buf == Flatten(full) + (Flatten(blocks) + buf);
  }

  lemma {:induction false} PieceGrows(src: seq<byte>, length: nat, remaining: int, bpp: nat, full: seq<seq<byte>>, blocks: seq<seq<byte>>, n: nat)
    requires At(src, length, remaining, bpp, full, [], blocks) && remaining > n
    requires n == BLOCK_SIZE && length - remaining + n <= |src|
    requires |Flatten(blocks)| + n != BLOCK_SIZE * bpp
    ensures full == [] || length > BLOCK_SIZE * bpp
    ensures At(src, length, remaining - n, bpp, full, [], blocks + [src[length - remaining..length - remaining + n]])
  {
    NextBlock(src, length, remaining, bpp, full, blocks, n);
  }

  lemma {:induction false} PieceCloses(src: seq<byte>, length: nat, remaining: int, bpp: nat, full: seq<seq<byte>>, blocks: seq<seq<byte>>, n: nat)
    requires At(src, length, remaining, bpp, full, [], blocks) && remaining > 0
    requires n == Min(BLOCK_SIZE, remaining) && length - remaining + n <= |src|
    requires |Flatten(blocks)| + n == BLOCK_SIZE * bpp || remaining == n
    ensures var piece := Flatten(blocks) + src[length - remaining..length - remaining + n];
            remaining > n ==> |piece| == BLOCK_SIZE * bpp && length > BLOCK_SIZE * bpp
    ensures var piece := Flatten(blocks) + src[length - remaining..length - remaining + n];
            if |piece| == BLOCK_SIZE * bpp
            then At(src, length, remaining - n, bpp, full + [piece], [], []) && Closed(full + [piece], []) == full + [piece]
            else At(src, length, remaining - n, bpp, full, piece, []) && Closed(full, piece) == full + [piece]
  {
    NextBlock(src, length, remaining, bpp, full, blocks, n);
    var piece := Flatten(blocks) + src[length - remaining..length - remaining + n];
    FlattenSnoc(full, piece);
    if |piece| == BLOCK_SIZE * bpp {
      assert Flatten(full + [piece]) + [] + Flatten<byte>([]) == Flatten(full) + piece;
    } else {
      assert Flatten(full) + piece + Flatten<byte>([]) == Flatten(full) + piece;
    }
  }

  lemma {:induction false} AtTheEnd(src: seq<byte>, length: nat, bpp: nat, full: seq<seq<byte>>, last: seq<byte>)
    requires bpp > 0 && At(src, length, 0, bpp, full, last, [])
    ensures Chunks(src[..length], BLOCK_SIZE * bpp) == Closed(full, last)
    ensures FullPieces(Closed(full, last), BLOCK_SIZE * bpp) == full
    ensures PendingOf(Closed(full, last), BLOCK_SIZE * bpp)
         == if last == [] then NoPending else Pending(last, BLOCK_SIZE * bpp - |last|)
  {
    assert src[..length] == Flatten(full) + last;
    ChunksOfFull(full, last, BLOCK_SIZE * bpp);
  }

  /** Appending the piece roots one by one to the layer bytes. */
  method LayerBytes(pieceRoots: seq<Hash>) returns (layerBytes: seq<byte>)
    ensures layerBytes == BytesOf(pieceRoots)
  {
    layerBytes := [];
    for i := 0 to |pieceRoots|
      invariant layerBytes + BytesOf(pieceRoots[i..]) == BytesOf(pieceRoots)
    {
      assert pieceRoots[i..][0] == pieceRoots[i] && pieceRoots[i..][1..] == pieceRoots[i + 1..];
      layerBytes := layerBytes + pieceRoots[i].bytes;
    }
  }

  /** What the hashes say once the pieces in `full`, and the short `last` one if any, are closed. */
  ghost predicate Hashed(h: Sha256, s1: Sha1, bpp: nat, sole: bool, v1: bool, full: seq<seq<byte>>, last: seq<byte>,
                         pieceRoots: seq<Hash>, v1Pieces: seq<byte>, pending: Pending)
    requires IsPow2(bpp)
  {
    && pieceRoots == PieceRoots(h, Closed(full, last), bpp, sole)
    && v1Pieces == (if v1 then Sha1s(s1, full) else [])
    && pending == (if v1 && last != [] then Pending(last, BLOCK_SIZE * bpp - |last|) else NoPending)
  }

  /** The tail of the loop: the piece whose blocks gave `leaves` is closed, or left pending. */
  method ClosePiece(h: Sha256, s1: Sha1, bpp: nat, sole: bool, v1: bool, leaves: seq<Hash>, v1Hasher: seq<byte>, pieceFilled: int,
                    roots: seq<Hash>, digests: seq<byte>, ghost full: seq<seq<byte>>, ghost piece: seq<byte>)
    returns (pieceRoots: seq<Hash>, v1Pieces: seq<byte>, pending: Pending)
    requires IsPow2(bpp) && Hashed(h, s1, bpp, sole, v1, full, [], roots, digests, NoPending)
    requires leaves == LeavesOf(h, piece) && pieceFilled == |piece| && (v1 ==> v1Hasher == piece)
    requires 0 < |piece| <= BLOCK_SIZE * bpp
    ensures |pieceRoots| == |full| + 1 && (|piece| == BLOCK_SIZE * bpp ==> pending == NoPending)
    ensures |piece| == BLOCK_SIZE * bpp ==>
              Hashed(h, s1, bpp, sole, v1, full + [piece], [], pieceRoots, v1Pieces, pending)
    ensures |piece| < BLOCK_SIZE * bpp ==>
              Hashed(h, s1, bpp, sole, v1, full, piece, pieceRoots, v1Pieces, pending)
  {
    hide RootOf, NextPow2Of, IsPow2, Chunks;
    PieceRootsAppend(h, full, [piece], bpp, sole);
    Sha1sAppend(s1, full, [piece]);
    assert Closed(full, []) == full && Closed(full + [piece], []) == full + [piece];
    var root := PieceRoot(h, leaves, bpp, sole);
    pieceRoots := roots + [root];
    v1Pieces, pending := digests, NoPending;
    if v1 {
      if pieceFilled == BLOCK_SIZE * bpp {
        v1Pieces := v1Pieces + s1(v1Hasher).bytes;
      } else {
        pending := Pending(v1Hasher, BLOCK_SIZE * bpp - pieceFilled);
      }
    }
  }

  /** The lines after the loop: the file root over the piece roots, and the layer bytes. */
  method FinishFile(h: Sha256, s1: Sha1, src: seq<byte>, length: nat, bpp: nat, v1: bool, pieceRoots: seq<Hash>,
                    v1Pieces: seq<byte>, pending: Pending, ghost full: seq<seq<byte>>, ghost last: seq<byte>)
    returns (r: FileHash)
    requires IsPow2(bpp) && At(src, length, 0, bpp, full, last, [])
    requires Hashed(h, s1, bpp, length <= BLOCK_SIZE * bpp, v1, full, last, pieceRoots, v1Pieces, pending)
    ensures r == FileHashOf(h, s1, src[..length], BLOCK_SIZE * bpp, bpp, v1)
  {
    AtTheEnd(src, length, bpp, full, last);
    var root := FileRoot(h, pieceRoots, bpp);
    var layerBytes := LayerBytes(pieceRoots);
    r := FileHash(root, layerBytes, |pieceRoots|, v1Pieces, pending);
  }

  lemma {:induction false} BeforeTheFile(h: Sha256, s1: Sha1, src: seq<byte>, length: nat, bpp: nat, sole: bool, v1: bool)
    requires IsPow2(bpp)
    ensures At(src, length, length, bpp, [], [], [])
    ensures Hashed(h, s1, bpp, sole, v1, [], [], [], [], NoPending)
    ensures Flatten<byte>([]) == [] && HashAll(h, []) == []
  {
  }

  /**
   * hashOneFileV2. `src` is what the file really holds and `length` what was declared for it; a
   * file shorter than declared is the read error. The v1 hasher is the bytes fed to it so far.
   */
  method HashOneFileV2(h: Sha256, s1: Sha1, src: seq<byte>, length: nat, pieceLength: nat, blocksPerPiece: nat, v1: bool)
    returns (res: Option<FileHash>)
    requires IsPow2(blocksPerPiece) && pieceLength == BLOCK_SIZE * blocksPerPiece
    ensures res.None? <==> |src| < length
    ensures res.Some? ==> res.value == FileHashOf(h, s1, src[..length], pieceLength, blocksPerPiece, v1)
  {
    hide PieceRootOf, FileRootOf, Chunks, FileHashOf, Hashed, At, Uniform, Flatten, IsPow2, PieceRoots, Sha1s, HashAll;
    var pieceRoots: seq<Hash>, v1Pieces: seq<byte>, pending := [], [], NoPending;
    var remaining, pieceFilled := length, 0;
    var v1Hasher: seq<byte>, leaves: seq<Hash> := [], [];
    ghost var full: seq<seq<byte>>, last: seq<byte>, blocks: seq<seq<byte>> := [], [], [];
    ghost var sole := length <= pieceLength;
    BeforeTheFile(h, s1, src, length, blocksPerPiece, sole, v1);

    while remaining > 0
      invariant At(src, length, remaining, blocksPerPiece, full, last, blocks)
      invariant 0 <= remaining <= length && length - remaining <= |src|
      invariant remaining > 0 ==> last == [] && (full == [] || !sole)
      invariant remaining == 0 ==> blocks == []
      invariant leaves == HashAll(h, blocks) && pieceFilled == |Flatten(blocks)|
      invariant Hashed(h, s1, blocksPerPiece, sole, v1, full, last, pieceRoots, v1Pieces, pending)
      invariant |pieceRoots| == |full| + if last == [] then 0 else 1
      invariant remaining > 0 ==> pending == NoPending
      invariant v1 && remaining > 0 ==> v1Hasher == Flatten(blocks)
    {
      var blockLen := if BLOCK_SIZE > remaining then remaining else BLOCK_SIZE;
      var start := length - remaining;
      if start + blockLen > |src| {
        return None;
      }
      var buf := src[start..start + blockLen];
      NextBlock(src, length, remaining, blocksPerPiece, full, blocks, blockLen);
      LeavesExtend(h, blocks, buf);
      leaves := leaves + [h.leaf(buf)];
      if v1 {
        v1Hasher := v1Hasher + buf;
      }
      pieceFilled := pieceFilled + blockLen;
      if pieceFilled != pieceLength && remaining != blockLen {
        PieceGrows(src, length, remaining, blocksPerPiece, full, blocks, blockLen);
        HashAllSnoc(h, blocks, buf);
        blocks := blocks + [buf];
      } else {
        ghost var piece := Flatten(blocks) + buf;
        PieceCloses(src, length, remaining, blocksPerPiece, full, blocks, blockLen);
        var soleFilePiece := |pieceRoots| == 0 && length <= pieceLength;
        assert soleFilePiece == sole;
        pieceRoots, v1Pieces, pending := ClosePiece(h, s1, blocksPerPiece, soleFilePiece, v1, leaves, v1Hasher, pieceFilled,
                                                    pieceRoots, v1Pieces, full, piece);
        if |piece| == pieceLength {
          full := full + [piece];
        } else {
          last := piece;
        }
        leaves, v1Hasher, blocks, pieceFilled := [], [], [], 0;
      }
      remaining := remaining - blockLen;
    }

    var r := FinishFile(h, s1, src, length, blocksPerPiece, v1, pieceRoots, v1Pieces, pending, full, last);
    res := Some(r);
  }

  lemma {:induction false} HashAllSnoc(h: Sha256, blocks: seq<seq<byte>>, block: seq<byte>)
    ensures HashAll(h, blocks + [block]) == HashAll(h, blocks) + [h.leaf(block)]
  {
    if blocks != [] {
      HashAllSnoc(h, blocks[1..], block);
      assert (blocks + [block])[1..] == blocks[1..] + [block];
    }
  }

  // ---------- the streamed hash is the file's one merkle tree ----------

  lemma {:induction false} LeavesAppend(h: Sha256, a: seq<byte>, b: seq<byte>, k: nat)
    requires |a| == BLOCK_SIZE * k
    ensures LeavesOf(h, a + b) == LeavesOf(h, a) + LeavesOf(h, b) && |LeavesOf(h, a)| == k
    decreases k
  {
    if k == 0 {
      assert a + b == b;
    } else {
      var first, rest := a[..BLOCK_SIZE], a[BLOCK_SIZE..];
      LeavesAppend(h, rest, b, k - 1);
      ChunksUnfold(a, BLOCK_SIZE);
      ChunksUnfold(a + b, BLOCK_SIZE);
      assert (a + b)[..BLOCK_SIZE] == first && (a + b)[BLOCK_SIZE..] == rest + b;
    }
  }

  lemma {:induction false} LeavesCount(h: Sha256, data: seq<byte>, bpp: nat)
    requires |data| <= BLOCK_SIZE * bpp
    ensures |LeavesOf(h, data)| <= bpp && (data != [] ==> LeavesOf(h, data) != [])
  {
    ChunksCount(data, BLOCK_SIZE);
  }

  lemma {:induction false} PiecesAreLeafBlocks(h: Sha256, data: seq<byte>, bpp: nat)
    requires IsPow2(bpp)
    ensures PieceRoots(h, Chunks(data, BLOCK_SIZE * bpp), bpp, false) == PieceRootsOf(h, LeavesOf(h, data), bpp)
    decreases |data|
  {
    hide PieceRootOf;
    var size := BLOCK_SIZE * bpp;
    if |data| > 0 {
      var first, rest := data[..Min(size, |data|)], data[Min(size, |data|)..];
      ChunksUnfold(data, size);
      PiecesAreLeafBlocks(h, rest, bpp);
      assert data == first + rest;
      if |data| <= size {
        LeavesCount(h, data, bpp);
        assert first == data && rest == [];
      } else {
        LeavesAppend(h, first, rest, bpp);
        assert |LeavesOf(h, rest)| > 0 by { LeavesCount(h, rest, |rest|); }
      }
      ChunksUnfold(LeavesOf(h, data), bpp);
      assert LeavesOf(h, data)[..Min(bpp, |LeavesOf(h, data)|)] == LeavesOf(h, first);
      assert LeavesOf(h, data)[Min(bpp, |LeavesOf(h, data)|)..] == LeavesOf(h, rest);
    }
  }

  /**
   * The `pieces root` the builder streams out is the root of one tree over the blocks of the whole
   * file, padded with zero digests to a whole power of two of pieces, or, for a file of one piece,
   * only to the next power of two of blocks.
   */
  lemma {:induction false} FileRootIsOneTree(h: Sha256, s1: Sha1, data: seq<byte>, bpp: nat, v1: bool)
    requires IsPow2(bpp) && data != []
    ensures var leaves := LeavesOf(h, data);
            var width := if |data| <= BLOCK_SIZE * bpp then NextPow2Of(|leaves|)
                         else bpp * NextPow2Of((|data| + BLOCK_SIZE * bpp - 1) / (BLOCK_SIZE * bpp));
            width >= 0 && IsPow2(width)
            && FileHashOf(h, s1, data, BLOCK_SIZE * bpp, bpp, v1).root == RootOf(h, PadLeaves(leaves, width))
  {
    hide RootOf, IsPow2;
    var size := BLOCK_SIZE * bpp;
    if |data| <= size {
      SolePieceIsOneTree(h, LeavesOf(h, data), bpp);
      assert FileRootsOf(h, data, size, bpp) == [PieceRootOf(h, LeavesOf(h, data), bpp, true)];
    } else {
      PiecesAreLeafBlocks(h, data, bpp);
      ChunksCount(data, size);
      TwoStageIsOneTree(h, LeavesOf(h, data), bpp);
      assert |PieceRootsOf(h, LeavesOf(h, data), bpp)| == |Chunks(data, size)|;
    }
  }
}
