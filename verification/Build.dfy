/** Build of internal/metainfo/create.go for version 2: the options are checked, the torrent is built, and parsed back. */
module Build {
  import opened Bytes
  import opened Merkle
  import opened Create
  import opened BuildV2
  import opened MetaInfo
  import opened Paths
  import opened BuiltTree
  import opened BuiltParses
  import opened TreeOrder

  datatype Failure = UnsafeTorrentName | NothingToBuild | NegativeSize | NoContent | ImplausiblePieceLength
                   | NotBuilt(why: BuildError) | NotParsed(error: ParseError)

  const MIB := 1048576
  const GIB := 1073741824

  /** The piece length for a torrent of some size, for a caller without a preference. */
  function ChoosePieceLength(total: int): (n: nat)
    ensures MIN_PIECE_LENGTH <= n <= MAX_PIECE_LENGTH && IsPow2(n)
    // never more than 4096 pieces up to 16 GiB, and no fewer than 100 from 50 MiB on
    ensures total <= 16 * GIB ==> total <= 4096 * n
    ensures total > 50 * MIB ==> total > 100 * n
  {
    Ladder();
    if total <= 50 * MIB then 262144
    else if total <= 500 * MIB then 524288
    else if total <= 2 * GIB then MIB
    else if total <= 8 * GIB then 2 * MIB
    else if total <= 16 * GIB then 4 * MIB
    else 8 * MIB
  }

  lemma {:induction false} Ladder()
    ensures IsPow2(262144) && IsPow2(524288) && IsPow2(MIB) && IsPow2(2 * MIB) && IsPow2(4 * MIB) && IsPow2(8 * MIB)
  {
    BlockSizeIsPow2();
    assert IsPow2(32768) && IsPow2(65536) && IsPow2(131072) && IsPow2(262144);
    assert IsPow2(524288) && IsPow2(1048576) && IsPow2(2097152) && IsPow2(4194304) && IsPow2(8388608);
  }

  function SumOf(files: seq<CreateFile>): (total: int) {
    if files == [] then 0 else SumOf(files[..|files| - 1]) + files[|files| - 1].length
  }

  lemma {:induction false} SumIsLengths(files: seq<CreateFile>)
    requires AllReadable(files)
    ensures SumOf(files) == LengthsOf(files)
  {
    if files != [] {
      SumIsLengths(files[..|files| - 1]);
    }
  }

  /** The piece length in use: 0 asks for a choice. */
  function PieceLengthFor(files: seq<CreateFile>, wanted: int): (n: int) {
    if wanted == 0 then ChoosePieceLength(SumOf(files)) else wanted
  }

  /** What Build asks of its options before it reads a file. */
  ghost predicate Sensible(files: seq<CreateFile>, name: string, wanted: int) {
    && ValidSegment(name) && files != [] && (forall i :: 0 <= i < |files| ==> files[i].length >= 0) && SumOf(files) > 0
    && MIN_PIECE_LENGTH <= PieceLengthFor(files, wanted) <= MAX_PIECE_LENGTH
  }

  /** The first loop: no negative size, and the total. */
  method Total(files: seq<CreateFile>) returns (total: Option<int>)
    ensures total.Some? <==> forall i :: 0 <= i < |files| ==> files[i].length >= 0
    ensures total.Some? ==> total.value == SumOf(files)
  {
    var sum := 0;
    for i := 0 to |files|
      invariant sum == SumOf(files[..i]) && forall j :: 0 <= j < i ==> files[j].length >= 0
    {
      if files[i].length < 0 {
        return None;
      }
      assert files[..i + 1][..i] == files[..i];
      sum := sum + files[i].length;
    }
    assert files[..|files|] == files;
    total := Some(sum);
  }

  /** The piece length and the files lead to a torrent that gives the files back. */
  ghost predicate Works(h: Sha256, files: seq<CreateFile>, name: string, hybrid: bool, size: int) {
    && size > 0 && IsPow2(size) && IsPow2(size / BLOCK_SIZE)
    && FirstFault(files, IsSingle(files)) == None && AllReadable(files) && Fits(h, files, name, hybrid, size)
  }

  /** The parsed torrent lists exactly the given files. */
  ghost predicate GivesBack(h: Sha256, files: seq<CreateFile>, name: string, size: int, mi: MetaInfo) {
    && size > 0 && IsPow2(size / BLOCK_SIZE) && AllReadable(files)
    && Lists(mi.v2Files, Expected(h, files, name, IsSingle(files), size, size / BLOCK_SIZE))
  }

  /** It is the accepted parse of what the builder made. */
  ghost predicate ParseOf(h: Sha256, s1: Sha1, files: seq<CreateFile>, name: string, hybrid: bool, size: int, b: Built, mi: MetaInfo) {
    && size > 0 && Buildable(h, s1, files, name, hybrid, size, b)
    && Acceptable(h, WireOf(b, name, hybrid, size), b.pieceLayers)
    && mi == MetaOf(WireOf(b, name, hybrid, size), b.pieceLayers)
  }

  /**
   * Build. What it returns is the accepted parse of what was built; and it lists exactly the given files if and only
   * if the options are sensible, the piece length is a power of two, every file can be read, and the paths, roots and
   * pieces fit.
   */
  method Build(h: Sha256, s1: Sha1, files: seq<CreateFile>, name: string, hybrid: bool, wanted: int) returns (r: Result<MetaInfo, Failure>, ghost b: Option<Built>)
    requires IsSha256(h) && IsSha1(s1)
    ensures r.Ok? ==> b.Some? && ParseOf(h, s1, files, name, hybrid, PieceLengthFor(files, wanted), b.value, r.value)
    ensures r.Ok? && GivesBack(h, files, name, PieceLengthFor(files, wanted), r.value)
       <==> Sensible(files, name, wanted) && Works(h, files, name, hybrid, PieceLengthFor(files, wanted))
  {
    hide ValidSegment, SumOf, ChoosePieceLength, IsPow2, Fits, FirstFault, Lists, Acceptable, HybridOf, TreeOf, LayersOf, MetaOf, WireOf, Expected;
    b := None;
    var safe := ValidatePathSegment(name);
    if !safe {
      return Err(UnsafeTorrentName), b;
    }
    if |files| == 0 {
      return Err(NothingToBuild), b;
    }
    var total := Total(files);
    if total.None? {
      return Err(NegativeSize), b;
    }
    if total.value <= 0 {
      return Err(NoContent), b;
    }
    var pieceLength := wanted;
    if pieceLength == 0 {
      pieceLength := ChoosePieceLength(total.value);
    }
    if pieceLength < MIN_PIECE_LENGTH || pieceLength > MAX_PIECE_LENGTH {
      return Err(ImplausiblePieceLength), b;
    }
    var built := BuildV2.BuildV2(h, s1, files, name, hybrid, pieceLength);
    if built.Err? {
      return Err(NotBuilt(built.error)), b;
    }
    SumIsLengths(files);
    b := Some(built.value);
    var parsed := SetInfo(h, WireOf(built.value, name, hybrid, pieceLength), built.value.pieceLayers);
    ParsedIff(h, s1, files, name, hybrid, pieceLength, built.value);
    r := if parsed.Err? then Err(NotParsed(parsed.error)) else Ok(parsed.value);
  }

  lemma {:induction false} ParsedIff(h: Sha256, s1: Sha1, files: seq<CreateFile>, name: string, hybrid: bool, size: nat, b: Built)
    requires Buildable(h, s1, files, name, hybrid, size, b)
    ensures var w := WireOf(b, name, hybrid, size);
            Acceptable(h, w, b.pieceLayers) && GivesBack(h, files, name, size, MetaOf(w, b.pieceLayers)) <==> Fits(h, files, name, hybrid, size)
  {
    hide Fits, Lists, TreeOf, LayersOf, Expected, V2FilesOf, LayerOk, SumLengths, InfosOf, HybridOf;
    BuiltTorrentParses(h, s1, files, name, hybrid, size, b);
  }
}
