/** Why a parsed torrent's piece layers can be trusted: setV2 of internal/metainfo/v2.go, for layers from anywhere. */
module Layers {
  import opened Bytes
  import opened Merkle
  import opened HashFile
  import opened Create
  import opened Geometry
  import opened MetaInfo
  import opened BuiltParses
  import opened BuiltTree
  import opened Verify
  import opened Paths
  import opened TreeWalk
  import FileTree

  /** Digest j of a layer. */
  function DigestAt(bytes: seq<byte>, j: nat): (d: Hash)
    requires 32 * j + 32 <= |bytes|
  {
    Hash(bytes[32 * j..32 * j + 32])
  }

  function Digests(bytes: seq<byte>, n: nat): (hs: seq<Hash>)
    requires |bytes| == 32 * n
  {
    seq(n, j requires 0 <= j < n => DigestAt(bytes, j))
  }

  lemma {:induction false} DigestsAreCut(bytes: seq<byte>, n: nat)
    requires |bytes| == 32 * n
    ensures HashesOf(bytes) == Digests(bytes, n)
  {
    if n == 0 {
      assert bytes == [];
    } else {
      var rest := bytes[32..];
      DigestsAreCut(rest, n - 1);
      ChunksUnfold(bytes, DIGEST_SIZE);
      forall j | 0 < j < n ensures DigestAt(bytes, j) == DigestAt(rest, j - 1) {
        assert bytes[32 * j..32 * j + 32] == rest[32 * (j - 1)..32 * (j - 1) + 32];
      }
      assert Digests(bytes, n) == [Hash(bytes[..32])] + Digests(rest, n - 1);
    }
  }

  /** Different layers of one size have different digests. */
  lemma {:induction false} DigestsDetermine(a: seq<byte>, b: seq<byte>, n: nat)
    requires |a| == |b| == 32 * n && Digests(a, n) == Digests(b, n)
    ensures a == b
  {
    forall i | 0 <= i < |a| ensures a[i] == b[i] {
      var j := i / 32;
      assert Digests(a, n)[j] == Digests(b, n)[j];
      assert a[32 * j..32 * j + 32][i - 32 * j] == b[32 * j..32 * j + 32][i - 32 * j];
    }
  }

  /** Whatever setInfo accepts: a recorded layer has a digest for each piece of its file, and they rebuild the file's root. */
  lemma {:induction false} AcceptedLayersRebuild(h: Sha256, w: InfoWire, layers: map<Hash, seq<byte>>, mi: MetaInfo, i: nat)
    requires Acceptable(h, w, layers) && mi == MetaOf(w, layers)
    requires i < |mi.v2Files| && mi.v2Files[i].length > 0 && mi.v2Files[i].root in mi.pieceLayers
    ensures mi.pieceLength == w.pieceLength > 0 && IsPow2(mi.pieceLength) && IsPow2(mi.pieceLength / 16384)
    ensures var f := mi.v2Files[i];
            var n := (f.length + mi.pieceLength - 1) / mi.pieceLength;
            && |mi.pieceLayers[f.root]| == 32 * n
            && FileRootOf(h, Digests(mi.pieceLayers[f.root], n), mi.pieceLength / 16384) == f.root
  {
    hide FileRootOf, HashesOf, IsPow2, V2FilesOf, V1FilesAcceptable, TotalPieces, V1Total, V1Real, TotalLength, Hash160sOf;
    var f := mi.v2Files[i];
    assert LayerOk(h, layers, f, w.pieceLength);
    DigestsAreCut(mi.pieceLayers[f.root], PiecesIn(f.length, w.pieceLength));
  }

  /** Two layers of one size that rebuild the same root: they are the same, or SHA-256 is broken. */
  lemma {:induction false} LayerIsBound(h: Sha256, a: seq<byte>, b: seq<byte>, n: nat, bpp: nat) returns (c: Option<Collision>)
    requires IsPow2(bpp) && |a| == |b| == 32 * n
    requires FileRootOf(h, Digests(a, n), bpp) == FileRootOf(h, Digests(b, n), bpp)
    ensures match c case None => a == b case Some(clash) => Collides(h, clash)
  {
    hide RootOf, ZeroPiece, NextPow2Of;
    var s, t, m := Digests(a, n), Digests(b, n), NextPow2Of(n);
    NextPow2OfIsPow2(n);
    var x, y := PadWith(s, m, ZeroPiece(h, bpp)), PadWith(t, m, ZeroPiece(h, bpp));
    if x == y {
      assert x[..n] == s && y[..n] == t;
      DigestsDetermine(a, b, n);
      c := None;
    } else {
      c := Some(TreeCollision(h, x, y));
    }
  }

  lemma {:induction false} NextPow2OfIsPow2(n: nat)
    ensures IsPow2(NextPow2Of(n)) && NextPow2Of(n) >= n
  {
  }

  /** Two torrents accepted with the same file under the same root: one layer for it, wherever the two came from. */
  lemma {:induction false} AcceptedLayersAgree(h: Sha256, w: InfoWire, layers: map<Hash, seq<byte>>, mi: MetaInfo, i: nat,
                                               w': InfoWire, layers': map<Hash, seq<byte>>, mi': MetaInfo, i': nat) returns (c: Option<Collision>)
    requires Acceptable(h, w, layers) && mi == MetaOf(w, layers) && Acceptable(h, w', layers') && mi' == MetaOf(w', layers')
    requires i < |mi.v2Files| && mi.v2Files[i].length > 0 && mi.v2Files[i].root in mi.pieceLayers
    requires i' < |mi'.v2Files| && mi'.v2Files[i'].root in mi'.pieceLayers
    requires mi'.v2Files[i'].length == mi.v2Files[i].length && mi'.v2Files[i'].root == mi.v2Files[i].root && mi'.pieceLength == mi.pieceLength
    ensures match c
            case None => mi.pieceLayers[mi.v2Files[i].root] == mi'.pieceLayers[mi'.v2Files[i'].root]
            case Some(clash) => Collides(h, clash)
  {
    hide Acceptable, MetaOf, FileRootOf, Digests, IsPow2;
    AcceptedLayersRebuild(h, w, layers, mi, i);
    AcceptedLayersRebuild(h, w', layers', mi', i');
    var f, size := mi.v2Files[i], mi.pieceLength;
    c := LayerIsBound(h, mi.pieceLayers[f.root], mi'.pieceLayers[f.root], (f.length + size - 1) / size, size / 16384);
  }

  /** A layer accepted for a file with the root of this content is the content's own. */
  lemma {:induction false} AcceptedLayerIsOwn(h: Sha256, w: InfoWire, layers: map<Hash, seq<byte>>, i: nat, f: CreateFile)
    returns (c: Option<Collision>)
    requires IsSha256(h) && Acceptable(h, w, layers) && w.metaVersion == 2 && i < |V2FilesOf(w)| && f.Readable() && f.length > 0
    requires V2FilesOf(w)[i].length == f.length && V2FilesOf(w)[i].root in layers
    requires IsPow2(w.pieceLength / BLOCK_SIZE)
    requires V2FilesOf(w)[i].root == FileRootOf(h, RootsOf(h, f, w.pieceLength, w.pieceLength / BLOCK_SIZE), w.pieceLength / BLOCK_SIZE)
    ensures match c
            case None => layers[V2FilesOf(w)[i].root] == BytesOf(RootsOf(h, f, w.pieceLength, w.pieceLength / BLOCK_SIZE))
            case Some(clash) => Collides(h, clash)
  {
    hide FileRootOf, HashesOf, V2FilesOf, Chunks, PieceRoots, IsPow2, Digests, V1FilesAcceptable, TotalPieces, V1Total, V1Real, TotalLength, Hash160sOf;
    var size, bpp, n := w.pieceLength, w.pieceLength / BLOCK_SIZE, PiecesIn(f.length, w.pieceLength);
    if w.pieces != [] {
      TotalNonNegative(w);
    }
    var mi := MetaOf(w, layers);
    assert mi.v2Files == V2FilesOf(w) && mi.pieceLayers == layers && mi.pieceLength == size;
    AcceptedLayersRebuild(h, w, layers, mi, i);
    hide MetaOf, Acceptable;
    var own := RootsOf(h, f, size, bpp);
    PieceCount(f.Content(), size);
    PieceRootsSized(h, Chunks(f.Content(), size), bpp, f.length <= size);
    LayerRoundTrip(own);
    DigestsAreCut(BytesOf(own), n);
    c := LayerIsBound(h, layers[V2FilesOf(w)[i].root], BytesOf(own), n, bpp);
  }

  /**
   * So no accepted torrent, whoever made it, lets a piece pass that is not the content its root stands for:
   * a buffer that passes starts with the piece's own bytes, or SHA-256 is broken.
   */
  lemma {:induction false} OnlyOwnBytesPass(h: Sha256, w: InfoWire, layers: map<Hash, seq<byte>>, index: nat, f: CreateFile, p: seq<byte>)
    returns (c: Option<Collision>)
    requires IsSha256(h) && Acceptable(h, w, layers) && w.metaVersion == 2 && f.Readable() && f.length > 0
    requires Geometric(MetaOf(w, layers)) && index < TotalPieces(V2FilesOf(w), w.pieceLength)
    requires var v := V2FilesOf(w)[FileOf(V2FilesOf(w), w.pieceLength, index)];
             && v.length == f.length && |p| >= PieceLen(V2FilesOf(w), w.pieceLength, index)
             && v.root == FileRootOf(h, RootsOf(h, f, w.pieceLength, w.pieceLength / BLOCK_SIZE), w.pieceLength / BLOCK_SIZE)
    requires V2Verdict(h, MetaOf(w, layers), index, p)
    ensures match c
            case None => PieceBytes(MetaOf(w, layers), f, index) <= p
            case Some(clash) => Collides(h, clash)
  {
    hide FileRootOf, HashesOf, V2FilesOf, Chunks, PieceRoots, IsPow2, Acceptable, RootsOf, PieceRootOf, LeavesOf, PiecesIn, FirstPiece;
    var mi := MetaOf(w, layers);
    var k := FileOf(V2FilesOf(w), w.pieceLength, index);
    c := None;
    if f.length > w.pieceLength {
      c := AcceptedLayerIsOwn(h, w, layers, k, f);
    }
    if c.None? {
      assert Describes(h, mi, k, f);
      c := OnlyOwnBytesVerify(h, mi, f, index, p);
    }
  }

  // ---------- what else every accepted torrent satisfies ----------

  /** Piece counts and lengths fit each other, on the v1 side, on the v2 side, and between the two. */
  lemma {:induction false} AcceptedIsConsistent(h: Sha256, w: InfoWire, layers: map<Hash, seq<byte>>)
    requires Acceptable(h, w, layers)
    ensures w.pieceLength > 0
    ensures var mi := MetaOf(w, layers);
            && 16384 <= mi.pieceLength <= 67108864 && (mi.metaVersion == 0 || mi.metaVersion == 2)
            && (mi.pieceHashes == [] ==> mi.metaVersion == 2)
            && (mi.pieceHashes != [] ==>
                 if w.files == [] then w.length > 0
                 else w.length == 0 && 0 < mi.totalLength < 0x8000_0000_0000_0000 && forall i :: 0 <= i < |w.files| ==> w.files[i].length >= 0)
            && |mi.pieceHashes| <= 4194304 && |w.pieces| == 20 * |mi.pieceHashes|
            && (mi.pieceHashes != [] ==> |mi.pieceHashes| == (mi.totalLength + mi.pieceLength - 1) / mi.pieceLength
                                         && mi.totalLength == if w.files == [] then w.length else SumLengths(w.files, true))
            && (mi.metaVersion == 2 ==> IsPow2(mi.pieceLength) && TotalPieces(mi.v2Files, mi.pieceLength) > 0)
            && (mi.metaVersion == 2 && mi.pieceHashes == [] ==> mi.totalLength == TotalLength(mi.v2Files))
            && (mi.metaVersion == 2 && mi.pieceHashes != [] ==>
                 && |mi.pieceHashes| == TotalPieces(mi.v2Files, mi.pieceLength)
                 && TotalLength(mi.v2Files) == if w.files == [] then w.length else SumLengths(w.files, false))
  {
    hide IsPow2, V2FilesOf, TotalPieces, TotalLength, SumLengths, LayerOk, ValidPath, ValidSegment, Chunks;
    ChunksCount(w.pieces, SHA1_SIZE);
    EmptyPieces();
  }

  /** Every non-empty v2 file of an accepted torrent has a root of 32 bytes. */
  lemma {:induction false} AcceptedRootsAreDigests(h: Sha256, w: InfoWire, layers: map<Hash, seq<byte>>, i: nat)
    requires Acceptable(h, w, layers) && w.metaVersion == 2 && i < |V2FilesOf(w)| && V2FilesOf(w)[i].length > 0
    ensures |V2FilesOf(w)[i].root.bytes| == 32
  {
    hide LayerOk, FileTree.Walk, SumLengths, TotalPieces, ValidPath;
    WalkIsListable(w.fileTree.value.entries, []);
  }

  /** Every file of an accepted torrent, of either kind, lies below the directory it is put in; the v2 files each in a place of its own. */
  lemma {:induction false} AcceptedFilesStayBelow(h: Sha256, w: InfoWire, layers: map<Hash, seq<byte>>, root: Path)
    requires Acceptable(h, w, layers)
    ensures Resolved(root, Split(Slashed([w.name]))) == [root + [w.name]]
    ensures w.pieces != [] ==> forall i :: 0 <= i < |w.files| ==> Resolved(root, Split(Slashed(w.files[i].path))) == [root + w.files[i].path]
    ensures w.metaVersion == 2 && KeysOrdered(w.fileTree.value.entries) ==>
              var files := MetaOf(w, layers).v2Files;
              && (forall i :: 0 <= i < |files| ==> Resolved(root, Split(Slashed(files[i].path))) == [root + files[i].path])
              && (forall i, j :: 0 <= i < j < |files| ==> files[i].path != files[j].path)
  {
    hide ValidSegment, Slashed, Split, Resolved, LayerOk, FileTree.Walk, SumLengths, TotalPieces;
    PathsStayBelow(root, [w.name]);
    if w.pieces != [] {
      forall i | 0 <= i < |w.files| ensures Resolved(root, Split(Slashed(w.files[i].path))) == [root + w.files[i].path] {
        PathsStayBelow(root, w.files[i].path);
      }
    }
    if w.metaVersion == 2 && KeysOrdered(w.fileTree.value.entries) {
      var files := V2FilesOf(w);
      WalkAscends(w.fileTree.value.entries, []);
      forall i | 0 <= i < |files| ensures Resolved(root, Split(Slashed(files[i].path))) == [root + files[i].path] {
        PathsStayBelow(root, files[i].path);
      }
      forall i, j | 0 <= i < j < |files| ensures files[i].path != files[j].path {
        assert PathBefore(files[i].path[0..], files[j].path[0..]);
        BeforeIsApart(files[i].path[0..], files[j].path[0..]);
      }
    }
  }
}
