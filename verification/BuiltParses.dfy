/** What the v2 builder produces is accepted by the parser, and exactly when it is not. */
module BuiltParses {
  import opened Bytes
  import opened Merkle
  import opened HashFile
  import opened Create
  import opened BuildV2
  import opened Geometry
  import opened MetaInfo
  import opened Paths
  import opened TreeWalk
  import opened BuiltTree
  import Bencode
  import FileTree
  import Decimal

  // ---------- the v2 totals do not depend on the order of the tree ----------

  function Without(v2: seq<V2File>, j: nat): (r: seq<V2File>)
    requires j < |v2|
    ensures |r| == |v2| - 1
  {
    v2[..j] + v2[j + 1..]
  }

  lemma {:induction false} TotalsWithout(v2: seq<V2File>, size: nat, j: nat, k: nat)
    requires size > 0 && j < k <= |v2|
    ensures FirstPiece(v2, size, k) == FirstPiece(Without(v2, j), size, k - 1) + PiecesIn(v2[j].length, size)
    ensures FileOffset(v2, k) == FileOffset(Without(v2, j), k - 1) + v2[j].length
    decreases k
  {
    hide PiecesIn;
    if k == j + 1 {
      PrefixTotals(v2, Without(v2, j), size, j);
    } else {
      TotalsWithout(v2, size, j, k - 1);
      assert Without(v2, j)[k - 2] == v2[k - 1];
    }
  }

  lemma {:induction false} PrefixTotals(a: seq<V2File>, b: seq<V2File>, size: nat, k: nat)
    requires size > 0 && k <= |a| && k <= |b| && a[..k] == b[..k]
    ensures FirstPiece(a, size, k) == FirstPiece(b, size, k) && FileOffset(a, k) == FileOffset(b, k)
    decreases k
  {
    hide PiecesIn;
    if k > 0 {
      assert a[..k - 1] == a[..k][..k - 1] && b[..k - 1] == b[..k][..k - 1];
      assert a[k - 1] == a[..k][k - 1] && b[k - 1] == b[..k][k - 1];
      PrefixTotals(a, b, size, k - 1);
    }
  }

  function LengthsOf(files: seq<CreateFile>): (n: nat)
    requires AllReadable(files)
  {
    if files == [] then 0 else LengthsOf(files[..|files| - 1]) + files[|files| - 1].length
  }

  lemma {:induction false} WithoutOne(v2: seq<V2File>, fs: seq<V2File>, j: nat)
    requires fs != [] && j < |v2| && v2[j] == fs[|fs| - 1] && Lists(v2, fs)
    ensures Lists(Without(v2, j), fs[..|fs| - 1])
  {
    assert v2 == v2[..j] + [v2[j]] + v2[j + 1..];
    assert fs == fs[..|fs| - 1] + [fs[|fs| - 1]];
    assert multiset(v2) == multiset(Without(v2, j)) + multiset{v2[j]};
    assert multiset(fs) == multiset(fs[..|fs| - 1]) + multiset{v2[j]};
    Cancel(multiset(Without(v2, j)), multiset(fs[..|fs| - 1]), v2[j]);
  }

  lemma {:induction false} Cancel(a: multiset<V2File>, b: multiset<V2File>, f: V2File)
    requires a + multiset{f} == b + multiset{f}
    ensures a == b
  {
    assert a == (a + multiset{f}) - multiset{f} && b == (b + multiset{f}) - multiset{f};
  }

  lemma {:induction false} SameCount(v2: seq<V2File>, fs: seq<V2File>)
    requires Lists(v2, fs)
    ensures |v2| == |fs|
  {
    assert |multiset(v2)| == |multiset(fs)|;
  }

  /** However the parsed files are ordered, their totals are those of the given ones. */
  lemma {:induction false} TreeTotals(h: Sha256, files: seq<CreateFile>, name: string, single: bool, size: nat, bpp: nat, v2: seq<V2File>)
    requires AllReadable(files) && size > 0 && IsPow2(bpp) && Lists(v2, Expected(h, files, name, single, size, bpp))
    ensures TotalPieces(v2, size) == |FilePieces(files, size)| && TotalLength(v2) == LengthsOf(files)
  {
    hide Chunks, PiecesIn, Without, EntryOf, Lists;
    var fs := Expected(h, files, name, single, size, bpp);
    SameCount(v2, fs);
    if files != [] {
      var n := |files| - 1;
      var j := Listed(v2, fs, n);
      WithoutOne(v2, fs, j);
      ExpectedFront(h, files, name, single, size, bpp);
      EntryLength(h, files[n], size, bpp);
      assert fs[..n] == Expected(h, files[..n], name, single, size, bpp);
      TreeTotals(h, files[..n], name, single, size, bpp, Without(v2, j));
      TotalsWithout(v2, size, j, |v2|);
      PieceCount(files[n].Content(), size);
    }
  }

  lemma {:induction false} EntryLength(h: Sha256, f: CreateFile, size: nat, bpp: nat)
    requires f.Readable() && size > 0 && IsPow2(bpp)
    ensures EntryOf(h, f, size, bpp).length == f.length
  {
  }

  lemma {:induction false} PieceCount(content: seq<byte>, size: nat)
    requires size > 0
    ensures |Chunks(content, size)| == PiecesIn(|content|, size)
  {
    ChunksCount(content, size);
  }

  // ---------- the piece layers ----------

  function RootsOf(h: Sha256, f: CreateFile, size: nat, bpp: nat): (roots: seq<Hash>)
    requires f.Readable() && size > 0 && IsPow2(bpp)
  {
    FileRootsOf(h, f.Content(), size, bpp)
  }

  /** File g has a piece layer, and it is listed under file f's root. */
  ghost predicate SharesRoot(h: Sha256, f: CreateFile, g: CreateFile, size: nat, bpp: nat)
    requires f.Readable() && g.Readable() && size > 0 && IsPow2(bpp)
  {
    f.length > 0 && g.length > 0 && |RootsOf(h, g, size, bpp)| > 1
    && FileRootOf(h, RootsOf(h, f, size, bpp), bpp) == FileRootOf(h, RootsOf(h, g, size, bpp), bpp)
  }

  /** No file has the root of another file that has a different number of pieces and a layer. */
  ghost predicate NoRootClash(h: Sha256, files: seq<CreateFile>, size: nat, bpp: nat)
    requires AllReadable(files) && size > 0 && IsPow2(bpp)
  {
    forall i, j :: 0 <= i < |files| && 0 <= j < |files| && SharesRoot(h, files[i], files[j], size, bpp) ==>
      |RootsOf(h, files[i], size, bpp)| == |RootsOf(h, files[j], size, bpp)|
  }

  /** What is listed under a root is the layer of some file with that root, and every such file is listed. */
  lemma {:induction false} LayersAre(h: Sha256, files: seq<CreateFile>, size: nat, bpp: nat, f: CreateFile) returns (k: int)
    requires AllReadable(files) && f.Readable() && f.length > 0 && size > 0 && IsPow2(bpp)
    ensures var root := FileRootOf(h, RootsOf(h, f, size, bpp), bpp);
            var layers := LayersOf(h, files, size, bpp);
            if root in layers then
              0 <= k < |files| && SharesRoot(h, f, files[k], size, bpp) && layers[root] == BytesOf(RootsOf(h, files[k], size, bpp))
            else
              forall j :: 0 <= j < |files| ==> !SharesRoot(h, f, files[j], size, bpp)
  {
    hide FileRootOf, FileRootsOf, BytesOf;
    k := -1;
    if files != [] {
      var front, g := files[..|files| - 1], files[|files| - 1];
      k := LayersAre(h, front, size, bpp, f);
      if SharesRoot(h, f, g, size, bpp) {
        k := |files| - 1;
      }
      forall j | 0 <= j < |front| ensures front[j] == files[j] {
      }
    }
  }

  /** Layer bytes cut back into digests give the piece roots again. */
  lemma {:induction false} LayerRoundTrip(hs: seq<Hash>)
    requires forall i :: 0 <= i < |hs| ==> Sized(hs[i])
    ensures HashesOf(BytesOf(hs)) == hs && |BytesOf(hs)| == DIGEST_SIZE * |hs|
  {
    if hs != [] {
      LayerRoundTrip(hs[1..]);
      var bytes := BytesOf(hs);
      assert bytes[..DIGEST_SIZE] == hs[0].bytes && bytes[DIGEST_SIZE..] == BytesOf(hs[1..]);
      ChunksUnfold(bytes, DIGEST_SIZE);
    }
  }

  /** A file's own entry passes setV2 exactly if what is listed under its root has its piece count. */
  lemma {:induction false} LayerOkIff(h: Sha256, files: seq<CreateFile>, size: nat, bpp: nat, i: nat, v: V2File)
    requires IsSha256(h) && AllReadable(files) && size > 0 && IsPow2(bpp) && bpp == size / BLOCK_SIZE && i < |files|
    requires TreeEntry(v.length, v.root) == EntryOf(h, files[i], size, bpp)
    ensures LayerOk(h, LayersOf(h, files, size, bpp), v, size)
        ==> forall j :: 0 <= j < |files| && SharesRoot(h, files[i], files[j], size, bpp) ==>
              files[i].length > 0 && v.root in LayersOf(h, files, size, bpp)
              && |LayersOf(h, files, size, bpp)[v.root]| == DIGEST_SIZE * |RootsOf(h, files[i], size, bpp)|
    ensures NoRootClash(h, files, size, bpp) ==> LayerOk(h, LayersOf(h, files, size, bpp), v, size)
  {
    hide FileRootOf, BytesOf, HashesOf, LayersOf, Chunks, PieceRoots, PiecesIn;
    var f := files[i];
    if f.length > 0 {
      PieceCount(f.Content(), size);
      var k := LayersAre(h, files, size, bpp, f);
      if v.root in LayersOf(h, files, size, bpp) {
        var roots := RootsOf(h, files[k], size, bpp);
        PieceRootsSized(h, Chunks(files[k].Content(), size), bpp, |files[k].Content()| <= size);
        LayerRoundTrip(roots);
      }
    }
  }

  ghost predicate AllLayersOk(h: Sha256, layers: map<Hash, seq<byte>>, v2: seq<V2File>, size: nat)
    requires size > 0 && IsPow2(size / BLOCK_SIZE)
  {
    forall i :: 0 <= i < |v2| ==> LayerOk(h, layers, v2[i], size)
  }

  lemma {:induction false} EntryInList(h: Sha256, files: seq<CreateFile>, name: string, single: bool, size: nat, bpp: nat, v2: seq<V2File>, i: nat) returns (k: nat)
    requires AllReadable(files) && size > 0 && IsPow2(bpp) && i < |files| && Lists(v2, Expected(h, files, name, single, size, bpp))
    ensures k < |v2| && v2[k] == ExpectedFile(h, files[i], name, single, size, bpp)
    ensures TreeEntry(v2[k].length, v2[k].root) == EntryOf(h, files[i], size, bpp)
  {
    hide EntryOf;
    k := Listed(v2, Expected(h, files, name, single, size, bpp), i);
  }

  lemma {:induction false} ListEntryIsFile(h: Sha256, files: seq<CreateFile>, name: string, single: bool, size: nat, bpp: nat, v2: seq<V2File>, k: nat) returns (i: nat)
    requires AllReadable(files) && size > 0 && IsPow2(bpp) && k < |v2| && Lists(v2, Expected(h, files, name, single, size, bpp))
    ensures i < |files| && v2[k] == ExpectedFile(h, files[i], name, single, size, bpp)
    ensures TreeEntry(v2[k].length, v2[k].root) == EntryOf(h, files[i], size, bpp)
  {
    hide EntryOf;
    i := Listed(Expected(h, files, name, single, size, bpp), v2, k);
  }

  /** setV2's reconstruction check passes on the emitted layers exactly when no roots clash. */
  lemma {:induction false} LayersPassIff(h: Sha256, files: seq<CreateFile>, name: string, single: bool, size: nat, bpp: nat, v2: seq<V2File>)
    requires IsSha256(h) && AllReadable(files)
    requires size > 0 && IsPow2(bpp) && bpp == size / BLOCK_SIZE
    requires Lists(v2, Expected(h, files, name, single, size, bpp))
    ensures AllLayersOk(h, LayersOf(h, files, size, bpp), v2, size) <==> NoRootClash(h, files, size, bpp)
  {
    hide Expected, Lists, LayersOf, RootsOf, FileRootOf, LayerOk, EntryOf;
    var layers := LayersOf(h, files, size, bpp);
    if NoRootClash(h, files, size, bpp) {
      forall k | 0 <= k < |v2| ensures LayerOk(h, layers, v2[k], size) {
        var i := ListEntryIsFile(h, files, name, single, size, bpp, v2, k);
        LayerOkIff(h, files, size, bpp, i, v2[k]);
      }
    }
    if AllLayersOk(h, layers, v2, size) {
      forall i, j | 0 <= i < |files| && 0 <= j < |files| && SharesRoot(h, files[i], files[j], size, bpp)
        ensures |RootsOf(h, files[i], size, bpp)| == |RootsOf(h, files[j], size, bpp)|
      {
        var a := EntryInList(h, files, name, single, size, bpp, v2, i);
        var b := EntryInList(h, files, name, single, size, bpp, v2, j);
        LayerOkIff(h, files, size, bpp, i, v2[a]);
        LayerOkIff(h, files, size, bpp, j, v2[b]);
        SameRoot(h, files[i], files[j], size, bpp, v2[a], v2[b]);
      }
    }
  }

  lemma {:induction false} SameRoot(h: Sha256, f: CreateFile, g: CreateFile, size: nat, bpp: nat, v: V2File, w: V2File)
    requires f.Readable() && g.Readable() && size > 0 && IsPow2(bpp) && SharesRoot(h, f, g, size, bpp)
    requires TreeEntry(v.length, v.root) == EntryOf(h, f, size, bpp) && TreeEntry(w.length, w.root) == EntryOf(h, g, size, bpp)
    ensures v.root == w.root && SharesRoot(h, g, g, size, bpp)
  {
  }

  // ---------- the v1 sums ----------

  function InfosOf(entries: seq<V1Entry>): (infos: seq<FileInfo>)
    ensures |infos| == |entries|
  {
    if entries == [] then []
    else
      var last := entries[|entries| - 1];
      InfosOf(entries[..|entries| - 1]) + [FileInfo(last.file.path, last.file.length, last.padding)]
  }

  lemma {:induction false} FilesFront(entries: seq<V1Entry>)
    requires entries != [] && AllReadable(Files(entries))
    ensures var front, last := entries[..|entries| - 1], entries[|entries| - 1];
            && Files(entries)[..|entries| - 1] == Files(front) && AllReadable(Files(front)) && last.file.Readable()
            && StreamOf(Files(entries)) == StreamOf(Files(front)) + last.file.Content()
            && InfosOf(entries)[..|entries| - 1] == InfosOf(front)
            && InfosOf(entries)[|entries| - 1] == FileInfo(last.file.path, last.file.length, last.padding)
  {
    var front, last := entries[..|entries| - 1], entries[|entries| - 1];
    assert Files(entries)[..|front|] == Files(front);
    assert Files(entries)[|front|] == last.file;
  }

  lemma {:induction false} LengthsSnoc(files: seq<CreateFile>, f: CreateFile)
    requires AllReadable(files) && f.Readable()
    ensures AllReadable(files + [f]) && LengthsOf(files + [f]) == LengthsOf(files) + f.length
  {
    assert (files + [f])[..|files|] == files;
  }

  lemma {:induction false} V1Sums(entries: seq<V1Entry>)
    requires AllReadable(Files(entries))
    ensures SumLengths(InfosOf(entries), true) == |StreamOf(Files(entries))|
    ensures AllReadable(RealFiles(entries)) && SumLengths(InfosOf(entries), false) == LengthsOf(RealFiles(entries))
    ensures forall i :: 0 <= i < |entries| ==> InfosOf(entries)[i].length >= 0
  {
    if entries != [] {
      hide InfosOf, StreamOf, Files, LengthsOf;
      var front, last := entries[..|entries| - 1], entries[|entries| - 1];
      FilesFront(entries);
      V1Sums(front);
      LengthsSnoc(RealFiles(front), last.file);
      assert RealFiles(front) + [] == RealFiles(front);
      forall i | 0 <= i < |entries| ensures InfosOf(entries)[i].length >= 0 {
        if i < |front| {
          assert InfosOf(entries)[i] == InfosOf(front)[i];
        }
      }
    }
  }

  lemma {:induction false} DigestsLength(s1: Sha1, pieces: seq<seq<byte>>)
    requires IsSha1(s1)
    ensures |Sha1s(s1, pieces)| == SHA1_SIZE * |pieces|
  {
    if pieces != [] {
      DigestsLength(s1, pieces[1..]);
    }
  }

  // ---------- the theorem ----------

  /** The info dictionary that is written for what was built. */
  function WireOf(b: Built, name: string, hybrid: bool, size: nat): (w: InfoWire) {
    InfoWire(name, size, b.v1Pieces, if hybrid && b.single then b.v1SingleLength else 0,
             if hybrid && !b.single then InfosOf(b.v1Files) else [], 2, Some(Bencode.Dict(b.tree)))
  }

  /** What BuildV2 ensures of its result. */
  ghost predicate BuiltFrom(h: Sha256, s1: Sha1, files: seq<CreateFile>, name: string, hybrid: bool, size: nat, b: Built)
    requires size > 0 && AllReadable(files) && IsPow2(size / BLOCK_SIZE)
  {
    && b.single == IsSingle(files) && Placed(files, b.single)
    && b.tree == TreeOf(h, files, name, b.single, size, size / BLOCK_SIZE)
    && b.pieceLayers == LayersOf(h, files, size, size / BLOCK_SIZE)
    && (hybrid ==> HybridOf(s1, files, V1List(files, b), b.v1Pieces, size))
    && (hybrid && b.single ==> b.v1SingleLength == files[0].length)
    && (!hybrid ==> b.v1Pieces == [])
  }

  lemma {:induction false} PiecesExist(files: seq<CreateFile>, size: nat)
    requires AllReadable(files) && size > 0 && LengthsOf(files) > 0
    ensures |FilePieces(files, size)| > 0
  {
    if files[|files| - 1].length == 0 {
      PiecesExist(files[..|files| - 1], size);
    } else {
      ChunksUnfold(files[|files| - 1].Content(), size);
    }
  }

  /** Parsing accepts what was built, and finds exactly the files it was given. */
  ghost predicate ComesBack(h: Sha256, files: seq<CreateFile>, name: string, hybrid: bool, size: nat, b: Built)
    requires size > 0 && AllReadable(files) && IsPow2(size / BLOCK_SIZE)
  {
    var w := WireOf(b, name, hybrid, size);
    Acceptable(h, w, b.pieceLayers) && Lists(V2FilesOf(w), Expected(h, files, name, b.single, size, size / BLOCK_SIZE))
  }

  /** What the builder has to be given for that. */
  ghost predicate Fits(h: Sha256, files: seq<CreateFile>, name: string, hybrid: bool, size: nat)
    requires size > 0 && AllReadable(files) && IsPow2(size / BLOCK_SIZE)
  {
    && PathsFit(files, name, IsSingle(files))
    && NoRootClash(h, files, size, size / BLOCK_SIZE)
    && (hybrid ==> |FilePieces(files, size)| <= MAX_PIECES)
  }

  /**
   * Parsing what the builder built gives back exactly the files it was given if and only if their paths
   * fit, no file has the root of a file with another number of pieces and, for a hybrid torrent, there are
   * not too many pieces. The piece counts, the v1 length and the v2 length always agree.
   */
  lemma {:induction false} BuiltTorrentParses(h: Sha256, s1: Sha1, files: seq<CreateFile>, name: string, hybrid: bool, size: nat, b: Built)
    requires IsSha256(h) && IsSha1(s1) && MIN_PIECE_LENGTH <= size <= MAX_PIECE_LENGTH && IsPow2(size) && IsPow2(size / BLOCK_SIZE)
    requires AllReadable(files) && LengthsOf(files) > 0 && ValidSegment(name) && BuiltFrom(h, s1, files, name, hybrid, size, b)
    ensures ComesBack(h, files, name, hybrid, size, b) <==> Fits(h, files, name, hybrid, size)
    ensures Acceptable(h, WireOf(b, name, hybrid, size), b.pieceLayers) ==> Ascend(V2FilesOf(WireOf(b, name, hybrid, size)), [])
  {
    hide TreeOf, Lists, Expected, LayersOf, LayerOk, FirstPiece, FileOffset, SumLengths, InfosOf, NoRootClash, Chunks, PathsFit, ValidSegment,
         FileTree.TreeFiles, HybridOf, V1FilesAcceptable, V1Total, V1Real, Ascend;
    var w, bpp := WireOf(b, name, hybrid, size), size / BLOCK_SIZE;
    var v2, fs := V2FilesOf(w), Expected(h, files, name, b.single, size, bpp);
    FilesComeBackIff(h, files, name, b.single, size, bpp);
    PiecesExist(files, size);
    if Lists(v2, fs) {
      TreeTotals(h, files, name, b.single, size, bpp, v2);
      LayersPassIff(h, files, name, b.single, size, bpp, v2);
    }
    if hybrid {
      HybridSide(s1, files, name, b, size);
      if PathsFit(files, name, b.single) && |FilePieces(files, size)| <= MAX_PIECES {
        HybridFits(s1, files, name, b, size);
      }
    }
  }

  /** The v1 side of a hybrid torrent: its counts and lengths always agree with its files. */
  lemma {:induction false} HybridSide(s1: Sha1, files: seq<CreateFile>, name: string, b: Built, size: nat)
    requires IsSha1(s1) && size > 0 && AllReadable(files) && LengthsOf(files) > 0 && b.single == IsSingle(files)
    requires HybridOf(s1, files, V1List(files, b), b.v1Pieces, size) && (b.single ==> b.v1SingleLength == files[0].length)
    ensures var w := WireOf(b, name, true, size);
            && |b.v1Pieces| == SHA1_SIZE * |FilePieces(files, size)|
            && |FilePieces(files, size)| == (V1Total(w) + size - 1) / size
            && V1Total(w) > 0 && V1Real(w) == LengthsOf(files)
            && V1Total(w) == |StreamOf(Files(V1List(files, b)))|
  {
    hide Chunks, Aligned, FilePieces, Sha1s, SumLengths, InfosOf, LengthsOf, StreamOf, RealFiles, Files;
    var entries := V1List(files, b);
    var stream := StreamOf(Files(entries));
    DigestsLength(s1, Chunks(stream, size));
    ChunksCount(stream, size);
    V1Sums(entries);
    RealIsShorter(InfosOf(entries));
    NoInfos();
    if b.single {
      assert files == [files[0]];
      SingleSums(files[0]);
      assert entries == [V1Entry(files[0], false)];
    }
  }

  /** setFiles takes the padded list if the paths fit and the pieces are not too many. */
  lemma {:induction false} HybridFits(s1: Sha1, files: seq<CreateFile>, name: string, b: Built, size: nat)
    requires IsSha1(s1) && 0 < size <= MAX_PIECE_LENGTH && AllReadable(files) && LengthsOf(files) > 0 && b.single == IsSingle(files)
    requires HybridOf(s1, files, V1List(files, b), b.v1Pieces, size) && (b.single ==> b.v1SingleLength == files[0].length)
    requires PathsFit(files, name, b.single) && |FilePieces(files, size)| <= MAX_PIECES
    ensures V1FilesAcceptable(WireOf(b, name, true, size))
  {
    hide Chunks, Aligned, FilePieces, Sha1s, SumLengths, InfosOf, LengthsOf, StreamOf, RealFiles, Files, ValidPath;
    HybridSide(s1, files, name, b, size);
    CountBoundsTotal(V1Total(WireOf(b, name, true, size)), size, |FilePieces(files, size)|);
    if !b.single {
      V1Sums(b.v1Files);
      forall f | f in RealFiles(b.v1Files) ensures ValidPath(f.path) {
        var i :| 0 <= i < |files| && files[i] == f;
        assert ValidPath(PathOf(files[i], name, b.single));
      }
      InfosValid(b.v1Files, size);
    }
  }

  lemma {:induction false} CountBoundsTotal(total: int, size: nat, n: nat)
    requires 0 < size <= MAX_PIECE_LENGTH && total > 0 && n == (total + size - 1) / size && n <= MAX_PIECES
    ensures total <= Bencode.MAX_INT64
  {
    assert total <= n * size;
    assert n * size <= MAX_PIECES * size <= MAX_PIECES * MAX_PIECE_LENGTH;
  }

  /** Real paths are the files' own, and those of padding entries are always safe. */
  lemma {:induction false} InfosValid(entries: seq<V1Entry>, size: nat)
    requires size <= MAX_PIECE_LENGTH && PadsFit(entries, size) && forall f :: f in RealFiles(entries) ==> ValidPath(f.path)
    ensures forall i :: 0 <= i < |entries| ==> ValidPath(InfosOf(entries)[i].path)
  {
    hide ValidPath, PadEntry;
    if entries != [] {
      var n := |entries| - 1;
      assert forall j :: 0 <= j < n ==> entries[..n][j] == entries[j];
      InfosValid(entries[..n], size);
      if entries[n].padding {
        PadPathValid(entries[n].file.length);
      } else {
        assert entries[n].file in RealFiles(entries);
      }
    }
  }

  lemma {:induction false} PadPathValid(n: nat)
    requires 0 < n < MAX_PIECE_LENGTH
    ensures ValidPath(PadEntry(n).file.path)
  {
    hide ValidSegment, Decimal.Itoa;
    var path := PadEntry(n).file.path;
    Decimal.ItoaRoundTrip(n);
    assert MAX_PIECE_LENGTH < Decimal.Pow10(8) by {
      assert Decimal.Pow10(4) == 10000;
    }
    Decimal.ItoaLength(n, 8);
    DigitsAreSafe(Decimal.Itoa(n));
    DotPadIsSafe();
    assert path == [".pad", Decimal.Itoa(n)];
  }

  lemma {:induction false} DotPadIsSafe()
    ensures ValidSegment(".pad")
  {
    assert Base(".pad") == "" && Upper("") == "";
  }

  lemma {:induction false} DigitsAreSafe(s: string)
    requires 0 < |s| <= MAX_SEGMENT && Decimal.AllDigits(s)
    ensures ValidSegment(s)
  {
    assert forall i :: 0 <= i < |s| ==> Decimal.IsDigit(s[i]);
    assert Upper(Base(s))[0] == s[0];
    assert forall r :: r in RESERVED ==> r[0] >= 'A';
  }

  lemma {:induction false} NoInfos()
    ensures SumLengths([], true) == 0 && SumLengths([], false) == 0
  {
  }

  lemma {:induction false} SingleSums(f: CreateFile)
    requires f.Readable()
    ensures LengthsOf([f]) == f.length && SumLengths(InfosOf([V1Entry(f, false)]), true) == f.length
  {
    var es := [V1Entry(f, false)];
    assert es[..0] == [] && [f][..0] == [];
    assert InfosOf(es) == [FileInfo(f.path, f.length, false)];
    assert [FileInfo(f.path, f.length, false)][..0] == [];
  }

  lemma {:induction false} RealIsShorter(infos: seq<FileInfo>)
    requires forall i :: 0 <= i < |infos| ==> infos[i].length >= 0
    ensures 0 <= SumLengths(infos, false) <= SumLengths(infos, true)
  {
    if infos != [] {
      RealIsShorter(infos[..|infos| - 1]);
    }
  }

  // ---------- roots that clash ----------

  /**
   * Leaves and inner nodes are hashed alike, so two files can share a root: for any two-block file
   * at the smallest piece length, the 64-byte file made of its two piece roots has the same root with one piece
   * instead of two, and setV2 refuses the torrent that holds both.
   */
  lemma {:induction false} RootsCanClash(h: Sha256, content: seq<byte>, p: Path, q: Path)
    requires IsSha256(h) && |content| == 2 * MIN_PIECE_LENGTH
    ensures IsPow2(1)
    ensures var a := CreateFile(p, content, |content|);
            var twin := BytesOf(RootsOf(h, a, MIN_PIECE_LENGTH, 1));
            |twin| == 64 && !NoRootClash(h, [a, CreateFile(q, twin, 64)], MIN_PIECE_LENGTH, 1)
  {
    hide PieceRootOf, FileRootOf, LeavesOf, RootsOf, BytesOf, Chunks;
    var size := MIN_PIECE_LENGTH;
    var a := CreateFile(p, content, |content|);
    var l, r := h.leaf(content[..size]), h.leaf(content[size..]);
    assert a.Content() == content;
    RootsOfTwoBlocks(h, a);
    TwoRoots(h, l, r);
    TwoDigests(l, r);
    var b := CreateFile(q, l.bytes + r.bytes, 64);
    assert b.Content() == b.src;
    RootsOfOneBlock(h, b);
    OneBlock(h, b.src);
    assert SharesRoot(h, [a, b][1], [a, b][0], size, 1);
  }

  lemma {:induction false} RootsOfTwoBlocks(h: Sha256, f: CreateFile)
    requires f.Readable() && f.length == 2 * MIN_PIECE_LENGTH
    ensures RootsOf(h, f, MIN_PIECE_LENGTH, 1)
         == [h.leaf(f.Content()[..MIN_PIECE_LENGTH]), h.leaf(f.Content()[MIN_PIECE_LENGTH..])]
  {
    hide PieceRootOf, LeavesOf, Chunks;
    var x, y := f.Content()[..MIN_PIECE_LENGTH], f.Content()[MIN_PIECE_LENGTH..];
    TwoChunks(f.Content(), MIN_PIECE_LENGTH);
    OneBlock(h, x);
    OneBlock(h, y);
    assert [x, y][1..] == [y] && [y][1..] == [];
    assert PieceRoots(h, [y], 1, false) == [h.leaf(y)] + PieceRoots(h, [y][1..], 1, false);
    assert PieceRoots(h, [x, y], 1, false) == [h.leaf(x)] + PieceRoots(h, [x, y][1..], 1, false);
  }

  lemma {:induction false} RootsOfOneBlock(h: Sha256, f: CreateFile)
    requires f.Readable() && 0 < f.length <= MIN_PIECE_LENGTH
    ensures RootsOf(h, f, MIN_PIECE_LENGTH, 1) == [h.leaf(f.Content())]
  {
    hide PieceRootOf, LeavesOf, Chunks;
    OneChunk(f.Content(), MIN_PIECE_LENGTH);
    OneBlock(h, f.Content());
  }

  lemma {:induction false} OneChunk(x: seq<byte>, size: nat)
    requires 0 < |x| <= size
    ensures Chunks(x, size) == [x]
  {
  }

  lemma {:induction false} TwoChunks(s: seq<byte>, size: nat)
    requires size > 0 && |s| == 2 * size
    ensures Chunks(s, size) == [s[..size], s[size..]]
  {
    OneChunk(s[size..], size);
  }

  lemma {:induction false} TwoDigests(l: Hash, r: Hash)
    ensures BytesOf([l, r]) == l.bytes + r.bytes
  {
    assert [l, r][1..] == [r] && [r][1..] == [];
    assert BytesOf([r]) == r.bytes + BytesOf([r][1..]);
    assert BytesOf([l, r]) == l.bytes + BytesOf([l, r][1..]);
  }

  lemma {:induction false} OneBlock(h: Sha256, x: seq<byte>)
    requires 0 < |x| <= BLOCK_SIZE
    ensures PieceRootOf(h, LeavesOf(h, x), 1, true) == h.leaf(x) == PieceRootOf(h, LeavesOf(h, x), 1, false)
    ensures FileRootOf(h, [h.leaf(x)], 1) == h.leaf(x)
  {
    assert Chunks(x, BLOCK_SIZE) == [x];
    assert LeavesOf(h, x) == [h.leaf(x)];
    assert PadLeaves([h.leaf(x)], 1) == [h.leaf(x)];
  }

  lemma {:induction false} TwoRoots(h: Sha256, l: Hash, r: Hash)
    ensures FileRootOf(h, [l, r], 1) == h.node(l, r)
  {
    NextPow2Fixpoint(2);
    assert LevelUp(h, [l, r]) == [h.node(l, r)] by {
      assert [l, r][2..] == [];
    }
    assert RootOf(h, [l, r]) == RootOf(h, [h.node(l, r)]);
  }
}
