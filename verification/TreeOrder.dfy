/**
 * From the builder to the verifier: what was built, parsed back, checks out piece by piece on the content it was
 * built from. The file tree is walked in path order, so a hybrid torrent needs its v1 files in that order too.
 */
module TreeOrder {
  import opened Bytes
  import opened Merkle
  import opened HashFile
  import opened Create
  import opened BuildV2
  import opened Geometry
  import opened MetaInfo
  import opened Paths
  import opened TreeWalk
  import opened BuiltTree
  import opened BuiltParses
  import opened Verify
  import opened VerifyBuilt
  import FileTree

  // ---------- sorted lists ----------

  ghost predicate SortedPaths(ps: seq<Path>) {
    forall i, j :: 0 <= i < j < |ps| ==> PathBefore(ps[i], ps[j])
  }

  function PathsIn(v2: seq<V2File>): (ps: seq<Path>)
    ensures |ps| == |v2| && forall i :: 0 <= i < |v2| ==> ps[i] == v2[i].path
  {
    seq(|v2|, i requires 0 <= i < |v2| => v2[i].path)
  }

  /** Two lists of the same files, both sorted by path, are the same list. */
  lemma {:induction false} SortedUnique(a: seq<V2File>, b: seq<V2File>)
    requires SortedPaths(PathsIn(a)) && SortedPaths(PathsIn(b)) && Lists(a, b)
    ensures a == b
  {
    hide PathBefore, Lists, SortedPaths;
    SameCount(a, b);
    if a != [] {
      var n := |a| - 1;
      LastIsLast(a, b);
      WithoutOne(a, b, n);
      assert Without(a, n) == a[..n];
      FrontSorted(a);
      FrontSorted(b);
      SortedUnique(a[..n], b[..n]);
      assert a == a[..n] + [a[n]] && b == b[..n] + [b[n]];
    }
  }

  lemma {:induction false} FrontSorted(a: seq<V2File>)
    requires SortedPaths(PathsIn(a)) && a != []
    ensures SortedPaths(PathsIn(a[..|a| - 1]))
  {
    hide PathBefore;
    assert forall i :: 0 <= i < |a| - 1 ==> PathsIn(a[..|a| - 1])[i] == PathsIn(a)[i];
  }

  lemma {:induction false} LastIsLast(a: seq<V2File>, b: seq<V2File>)
    requires SortedPaths(PathsIn(a)) && SortedPaths(PathsIn(b)) && Lists(a, b) && a != [] && |a| == |b|
    ensures a[|a| - 1] == b[|b| - 1]
  {
    hide PathBefore;
    var n := |a| - 1;
    var i := Listed(a, b, n);
    var j := Listed(b, a, n);
    if i < n && j < n {
      assert PathBefore(PathsIn(a)[i], PathsIn(a)[n]) && PathBefore(PathsIn(b)[j], PathsIn(b)[n]);
      BeforeIsApart(a[i].path, a[n].path);
    }
  }

  /** What the parser lists is sorted. */
  lemma {:induction false} AscendIsSorted(v2: seq<V2File>)
    requires Ascend(v2, [])
    ensures SortedPaths(PathsIn(v2))
  {
    hide PathBefore;
    forall i, j | 0 <= i < j < |v2| ensures PathBefore(PathsIn(v2)[i], PathsIn(v2)[j]) {
      assert v2[i].path[0..] == v2[i].path && v2[j].path[0..] == v2[j].path;
    }
  }

  /** The files are given in path order. */
  ghost predicate Sorted(files: seq<CreateFile>, name: string, single: bool) {
    forall i, j :: 0 <= i < j < |files| ==> PathBefore(PathOf(files[i], name, single), PathOf(files[j], name, single))
  }

  /** Files collected in path order come back from the parsed file tree in the order they were given. */
  lemma {:induction false} SortedFilesStayInOrder(h: Sha256, files: seq<CreateFile>, name: string, hybrid: bool, size: nat, b: Built)
    requires AllReadable(files) && size > 0 && IsPow2(size / BLOCK_SIZE) && Sorted(files, name, b.single)
    requires ComesBack(h, files, name, hybrid, size, b) && Ascend(V2FilesOf(WireOf(b, name, hybrid, size)), [])
    ensures V2FilesOf(WireOf(b, name, hybrid, size)) == Expected(h, files, name, b.single, size, size / BLOCK_SIZE)
    ensures InOrder(h, files, size, V2FilesOf(WireOf(b, name, hybrid, size)))
  {
    hide EntryOf, PathBefore, Acceptable, FileTree.TreeFiles;
    var v2, fs := V2FilesOf(WireOf(b, name, hybrid, size)), Expected(h, files, name, b.single, size, size / BLOCK_SIZE);
    AscendIsSorted(v2);
    forall i, j | 0 <= i < j < |fs| ensures PathBefore(PathsIn(fs)[i], PathsIn(fs)[j]) {
    }
    SortedUnique(v2, fs);
  }

  // ---------- the parsed form of what was built ----------

  /** What Build hands over to Parse: a piece length, a name and files that it accepts. */
  ghost predicate Buildable(h: Sha256, s1: Sha1, files: seq<CreateFile>, name: string, hybrid: bool, size: nat, b: Built) {
    && IsSha256(h) && IsSha1(s1) && MIN_PIECE_LENGTH <= size <= MAX_PIECE_LENGTH && IsPow2(size) && IsPow2(size / BLOCK_SIZE)
    && AllReadable(files) && LengthsOf(files) > 0 && ValidSegment(name) && BuiltFrom(h, s1, files, name, hybrid, size, b)
  }

  function ParsedForm(b: Built, name: string, hybrid: bool, size: nat): (mi: MetaInfo)
    requires WireOf(b, name, hybrid, size).pieces != [] ==> V1Total(WireOf(b, name, hybrid, size)) >= 0
  {
    MetaOf(WireOf(b, name, hybrid, size), b.pieceLayers)
  }

  lemma {:induction false} PureForm(h: Sha256, s1: Sha1, files: seq<CreateFile>, name: string, size: nat, b: Built)
    requires Buildable(h, s1, files, name, false, size, b) && Fits(h, files, name, false, size)
    ensures WireOf(b, name, false, size).pieces == []
    ensures var mi := ParsedForm(b, name, false, size);
            && Geometric(mi) && mi.pieceLength == size && IsPureV2(mi) && mi.pieceLayers == LayersOf(h, files, size, size / BLOCK_SIZE)
            && mi.v2Files == V2FilesOf(WireOf(b, name, false, size))
  {
    hide V2FilesOf, TreeOf, LayersOf, InfosOf, Fits;
    PieceLengthInBlocks(size);
    EmptyPieces();
  }

  /** A parsed hybrid torrent is what the piece checks assume of it. */
  lemma {:induction false} HybridForm(h: Sha256, s1: Sha1, files: seq<CreateFile>, name: string, size: nat, b: Built)
    requires Buildable(h, s1, files, name, true, size, b) && Fits(h, files, name, true, size)
    ensures V1Total(WireOf(b, name, true, size)) >= 0
    ensures var mi := ParsedForm(b, name, true, size);
            && Geometric(mi) && mi.pieceLength == size && HybridMeta(h, s1, files, V1List(files, b), mi)
            && mi.v2Files == V2FilesOf(WireOf(b, name, true, size))
            && |mi.pieceHashes| == |FilePieces(files, size)|
  {
    hide V2FilesOf, TreeOf, LayersOf, InfosOf, NoRootClash, PathsFit, Hash160sOf, Sha1s, Chunks, StreamOf, Files, RealFiles, Aligned, PadsFit, V1Total, V1Real, V1FilesAcceptable;
    PieceLengthInBlocks(size);
    HybridSide(s1, files, name, b, size);
    PiecesExist(files, size);
    DigestsRoundTrip(s1, Chunks(StreamOf(Files(V1List(files, b))), size));
  }

  // ---------- built torrents check out ----------

  /**
   * A hybrid torrent built from files in path order, with paths and roots that do not clash: it is accepted, and every
   * piece of the parsed torrent passes both hashes on the padded stream it was built from, or SHA-256 collides.
   */
  lemma {:induction false} SortedHybridChecksOut(h: Sha256, s1: Sha1, files: seq<CreateFile>, name: string, size: nat, b: Built, index: nat)
    returns (c: Option<Collision>)
    requires Buildable(h, s1, files, name, true, size, b) && Fits(h, files, name, true, size) && Sorted(files, name, b.single)
    requires index < |FilePieces(files, size)|
    ensures Acceptable(h, WireOf(b, name, true, size), b.pieceLayers) && V1Total(WireOf(b, name, true, size)) >= 0
    ensures AllReadable(Files(V1List(files, b))) && Geometric(ParsedForm(b, name, true, size))
    ensures match c
            case None => PieceVerdict(h, s1, ParsedForm(b, name, true, size), index, StreamOf(Files(V1List(files, b)))) == Ok(true)
            case Some(clash) => Collides(h, clash)
  {
    hide V2FilesOf, TreeOf, LayersOf, InfosOf, Fits, Hash160sOf, Sha1s, Chunks, StreamOf, Files, RealFiles, Aligned, PadsFit, V1Total, V1Real,
         V1FilesAcceptable, PieceVerdict, HybridOf, Sorted, InOrder, Acceptable, EntryOf, Ascend;
    BuiltTorrentParses(h, s1, files, name, true, size, b);
    HybridForm(h, s1, files, name, size, b);
    SortedFilesStayInOrder(h, files, name, true, size, b);
    var mi := ParsedForm(b, name, true, size);
    FilePiecesCount(h, files, size, mi.v2Files);
    c := HybridPieceVerifies(h, s1, files, V1List(files, b), mi, index);
  }

  /**
   * A pure-v2 torrent built from files in any order: there is an order of the same files in which, laid end to end,
   * every piece passes, or SHA-256 collides.
   */
  lemma {:induction false} PureV2ChecksOut(h: Sha256, s1: Sha1, files: seq<CreateFile>, name: string, size: nat, b: Built, index: nat)
    returns (ordered: seq<CreateFile>, c: Option<Collision>)
    requires Buildable(h, s1, files, name, false, size, b) && Fits(h, files, name, false, size)
    requires index < |FilePieces(files, size)|
    ensures Acceptable(h, WireOf(b, name, false, size), b.pieceLayers) && WireOf(b, name, false, size).pieces == []
    ensures multiset(ordered) == multiset(files) && AllReadable(ordered) && Geometric(ParsedForm(b, name, false, size))
    ensures match c
            case None => PieceVerdict(h, s1, ParsedForm(b, name, false, size), index, StreamOf(ordered)) == Ok(true)
            case Some(clash) => Collides(h, clash)
  {
    hide V2FilesOf, TreeOf, LayersOf, InfosOf, Hash160sOf, Chunks, StreamOf, PieceVerdict, InOrder, Acceptable, EntryOf, Expected, NoRootClash, PathsFit;
    BuiltTorrentParses(h, s1, files, name, false, size, b);
    PureForm(h, s1, files, name, size, b);
    var mi := ParsedForm(b, name, false, size);
    ordered := InTreeOrder(h, files, name, b.single, size, mi.v2Files);
    TreeTotals(h, files, name, b.single, size, size / BLOCK_SIZE, mi.v2Files);
    var k := FileOf(mi.v2Files, size, index);
    var i := WhereFrom(h, files, ordered, size, mi.v2Files, k);
    c := PureV2PieceVerifies(h, s1, files, ordered, mi, index, i);
  }

  lemma {:induction false} WhereFrom(h: Sha256, files: seq<CreateFile>, ordered: seq<CreateFile>, size: nat, v2: seq<V2File>, k: nat) returns (i: nat)
    requires AllReadable(ordered) && size > 0 && IsPow2(size / BLOCK_SIZE) && InOrder(h, ordered, size, v2)
    requires multiset(ordered) == multiset(files) && k < |v2|
    ensures k < |ordered| && i < |files| && files[i] == ordered[k]
  {
    hide EntryOf;
    assert ordered[k] in multiset(files);
    i :| 0 <= i < |files| && files[i] == ordered[k];
  }

  /** The given files, put in the order in which they come back. */
  lemma {:induction false} InTreeOrder(h: Sha256, files: seq<CreateFile>, name: string, single: bool, size: nat, v2: seq<V2File>)
    returns (ordered: seq<CreateFile>)
    requires AllReadable(files) && size > 0 && IsPow2(size / BLOCK_SIZE) && Lists(v2, Expected(h, files, name, single, size, size / BLOCK_SIZE))
    ensures multiset(ordered) == multiset(files) && AllReadable(ordered) && InOrder(h, ordered, size, v2)
  {
    hide EntryOf, Lists;
    var bpp := size / BLOCK_SIZE;
    var fs := Expected(h, files, name, single, size, bpp);
    SameCount(v2, fs);
    if files == [] {
      ordered := [];
    } else {
      var n := |files| - 1;
      var j := Listed(v2, fs, n);
      WithoutOne(v2, fs, j);
      assert fs[..n] == Expected(h, files[..n], name, single, size, bpp);
      var rest := InTreeOrder(h, files[..n], name, single, size, Without(v2, j));
      ordered := rest[..j] + [files[n]] + rest[j..];
      PutBack(h, rest, files[n], size, v2, j);
      SameFiles(rest, files, j);
    }
  }

  lemma {:induction false} SameFiles(rest: seq<CreateFile>, files: seq<CreateFile>, j: nat)
    requires files != [] && j <= |rest| && multiset(rest) == multiset(files[..|files| - 1])
    ensures multiset(rest[..j] + [files[|files| - 1]] + rest[j..]) == multiset(files)
  {
    var n := |files| - 1;
    assert rest == rest[..j] + rest[j..] && files == files[..n] + [files[n]];
  }

  lemma {:induction false} PutBack(h: Sha256, rest: seq<CreateFile>, f: CreateFile, size: nat, v2: seq<V2File>, j: nat)
    requires AllReadable(rest) && f.Readable() && size > 0 && IsPow2(size / BLOCK_SIZE) && j < |v2| && InOrder(h, rest, size, Without(v2, j))
    requires TreeEntry(v2[j].length, v2[j].root) == EntryOf(h, f, size, size / BLOCK_SIZE)
    ensures AllReadable(rest[..j] + [f] + rest[j..]) && InOrder(h, rest[..j] + [f] + rest[j..], size, v2)
  {
    hide EntryOf;
    var ordered := rest[..j] + [f] + rest[j..];
    forall i | 0 <= i < |ordered| ensures ordered[i].Readable() && TreeEntry(v2[i].length, v2[i].root) == EntryOf(h, ordered[i], size, size / BLOCK_SIZE) {
      if i < j {
        assert ordered[i] == rest[i] && Without(v2, j)[i] == v2[i];
      } else if i > j {
        assert ordered[i] == rest[i - 1] && Without(v2, j)[i - 1] == v2[i];
      }
    }
  }

  // ---------- files out of order ----------

  /** Two files of one smallest piece each, given as b, a. */
  function TwoFilesOf(x: seq<byte>, y: seq<byte>): (files: seq<CreateFile>) {
    [CreateFile(["b"], x, |x|), CreateFile(["a"], y, |y|)]
  }

  /**
   * Out of path order the two descriptions disagree: the torrent built from b, a is accepted, but its first v1 piece
   * is b's content while its first v2 piece is a's, and verifyPiece reports the disagreement on the very stream the
   * torrent was built from.
   */
  lemma {:induction false} UnsortedHybridDisagrees(h: Sha256, s1: Sha1, x: seq<byte>, y: seq<byte>, name: string, b: Built)
    requires |x| == |y| == MIN_PIECE_LENGTH && h.leaf(x) != h.leaf(y)
    requires Buildable(h, s1, TwoFilesOf(x, y), name, true, MIN_PIECE_LENGTH, b)
    ensures Acceptable(h, WireOf(b, name, true, MIN_PIECE_LENGTH), b.pieceLayers) && V1Total(WireOf(b, name, true, MIN_PIECE_LENGTH)) >= 0
    ensures AllReadable(Files(V1List(TwoFilesOf(x, y), b))) && Geometric(ParsedForm(b, name, true, MIN_PIECE_LENGTH))
    ensures PieceVerdict(h, s1, ParsedForm(b, name, true, MIN_PIECE_LENGTH), 0, StreamOf(Files(V1List(TwoFilesOf(x, y), b)))) == Err(HashesDisagree)
  {
    hide V2FilesOf, TreeOf, LayersOf, InfosOf, Fits, Hash160sOf, Sha1s, Chunks, StreamOf, Files, RealFiles, Aligned, PadsFit, V1Total, V1Real,
         V1FilesAcceptable, PieceVerdict, HybridOf, Acceptable, EntryOf, Ascend, PathBefore;
    var files := TwoFilesOf(x, y);
    TwoFilesFit(h, x, y, name);
    BuiltTorrentParses(h, s1, files, name, true, MIN_PIECE_LENGTH, b);
    HybridForm(h, s1, files, name, MIN_PIECE_LENGTH, b);
    TwoFilesSwap(h, x, y, name, V2FilesOf(WireOf(b, name, true, MIN_PIECE_LENGTH)));
    FirstPieceDisagrees(h, s1, x, y, V1List(files, b), ParsedForm(b, name, true, MIN_PIECE_LENGTH));
  }

  lemma {:induction false} TwoFilesFit(h: Sha256, x: seq<byte>, y: seq<byte>, name: string)
    requires |x| == |y| == MIN_PIECE_LENGTH
    ensures IsPow2(MIN_PIECE_LENGTH / BLOCK_SIZE) && Fits(h, TwoFilesOf(x, y), name, true, MIN_PIECE_LENGTH)
  {
    hide Chunks, FileRootOf, PieceRootOf, ValidSegment;
    var files := TwoFilesOf(x, y);
    TwoFiles(x, y);
    RootsOfOneBlock(h, files[0]);
    RootsOfOneBlock(h, files[1]);
    OneLetter('a');
    OneLetter('b');
    assert ["a"][0][0] != ["b"][0][0];
  }

  lemma {:induction false} OneLetter(c: char)
    requires 'a' <= c <= 'z'
    ensures ValidSegment([c])
  {
    assert Base([c]) == [c] + Base([c][1..]);
    assert |Upper(Base([c]))| == 1;
  }

  lemma {:induction false} OneBlockEntry(h: Sha256, f: CreateFile)
    requires f.Readable() && f.length == MIN_PIECE_LENGTH
    ensures IsPow2(1) && EntryOf(h, f, MIN_PIECE_LENGTH, 1) == TreeEntry(f.length, h.leaf(f.Content()))
  {
    RootsOfOneBlock(h, f);
    OneBlock(h, f.Content());
  }

  /** They come back as a, b. */
  lemma {:induction false} TwoFilesSwap(h: Sha256, x: seq<byte>, y: seq<byte>, name: string, v2: seq<V2File>)
    requires |x| == |y| == MIN_PIECE_LENGTH && IsPow2(1) && Ascend(v2, [])
    requires Lists(v2, Expected(h, TwoFilesOf(x, y), name, false, MIN_PIECE_LENGTH, 1))
    ensures v2 == [V2File(["a"], |y|, h.leaf(y)), V2File(["b"], |x|, h.leaf(x))]
  {
    hide EntryOf, Ascend;
    var files := TwoFilesOf(x, y);
    assert files[0].Content() == x && files[1].Content() == y;
    OneBlockEntry(h, files[0]);
    OneBlockEntry(h, files[1]);
    var a, b := V2File(["a"], |y|, h.leaf(y)), V2File(["b"], |x|, h.leaf(x));
    assert Expected(h, files, name, false, MIN_PIECE_LENGTH, 1) == [b, a];
    hide Expected, ExpectedFile, PathBefore, SortedPaths;
    SwapTwo(v2, a, b);
    AscendIsSorted(v2);
    SortedUnique(v2, [a, b]);
  }

  lemma {:induction false} SwapTwo(v2: seq<V2File>, a: V2File, b: V2File)
    requires Lists(v2, [b, a]) && a.path == ["a"] && b.path == ["b"]
    ensures Lists(v2, [a, b]) && SortedPaths(PathsIn([a, b]))
  {
    assert multiset([b, a]) == multiset([a, b]);
    assert "a"[0] < "b"[0];
  }

  lemma {:induction false} FirstPieceDisagrees(h: Sha256, s1: Sha1, x: seq<byte>, y: seq<byte>, entries: seq<V1Entry>, mi: MetaInfo)
    requires IsSha1(s1) && |x| == |y| == MIN_PIECE_LENGTH == mi.pieceLength && h.leaf(x) != h.leaf(y)
    requires Geometric(mi) && HybridMeta(h, s1, TwoFilesOf(x, y), entries, mi)
    requires mi.v2Files == [V2File(["a"], |y|, h.leaf(y)), V2File(["b"], |x|, h.leaf(x))]
    ensures PieceVerdict(h, s1, mi, 0, StreamOf(Files(entries))) == Err(HashesDisagree)
  {
    hide Chunks, PiecesIn, Sha1s, Hash160sOf, StreamOf, Files, LayersOf, NoRootClash, RealFiles, Aligned, PieceRootOf, LeavesOf, FileBelow;
    var size, v2, stream := MIN_PIECE_LENGTH, mi.v2Files, StreamOf(Files(entries));
    TwoFiles(x, y);
    DigestsAt(s1, Chunks(stream, size), 0);
    V1PieceIsChunk(mi, stream, 0);
    SamePiece(x, Chunks(stream, size)[0]);
    TwoRuns(v2, size);
    CoversUnique(v2, size, 0, FileOf(v2, size, 0), 0);
    OneBlock(h, x);
    assert V2Length(mi, 0, x) == size && x[..size] == x;
  }

  lemma {:induction false} TwoFiles(x: seq<byte>, y: seq<byte>)
    requires |x| == |y| == MIN_PIECE_LENGTH
    ensures FilePieces(TwoFilesOf(x, y), MIN_PIECE_LENGTH) == [x, y]
  {
    var f, g := CreateFile(["b"], x, |x|), CreateFile(["a"], y, |y|);
    OneChunk(x, MIN_PIECE_LENGTH);
    OneChunk(y, MIN_PIECE_LENGTH);
    assert [f, g][..1] == [f] && [f][..0] == [] && f.Content() == x && g.Content() == y;
    assert FilePieces([f], MIN_PIECE_LENGTH) == FilePieces([f][..0], MIN_PIECE_LENGTH) + [x];
  }

  lemma {:induction false} SamePiece(x: seq<byte>, chunk: seq<byte>)
    requires ZeroExtends(x, chunk) && |chunk| <= |x|
    ensures chunk == x
  {
  }

  lemma {:induction false} TwoRuns(v2: seq<V2File>, size: nat)
    requires size > 0 && |v2| == 2 && v2[0].length == v2[1].length == size
    ensures TotalPieces(v2, size) == 2 && FirstPiece(v2, size, 0) == 0 && FirstPiece(v2, size, 1) == 1
  {
    DivModUnique(size + size - 1, size, 1, size - 1);
    assert PiecesIn(size, size) == 1;
    assert FirstPiece(v2, size, 1) == FirstPiece(v2, size, 0) + 1;
    assert FirstPiece(v2, size, 2) == FirstPiece(v2, size, 1) + 1;
  }
}
