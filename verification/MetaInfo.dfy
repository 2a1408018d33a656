/** Parsing what was built: setInfo, setV2 and validateHybridConsistency of internal/metainfo. */
module MetaInfo {
  import opened Bytes
  import opened Merkle
  import opened BuildV2
  import opened Geometry
  import opened Paths
  import Bencode
  import FileTree

  const MAX_PIECES := 4194304

  /** An entry of the v1 'files' list, and the info dictionary; its file tree is a bencoded value of its own. */
  datatype FileInfo = FileInfo(path: Path, length: int, padding: bool)
  datatype InfoWire = InfoWire(name: string, pieceLength: int, pieces: seq<byte>, length: int, files: seq<FileInfo>, metaVersion: int,
                               fileTree: Option<Bencode.Value>)

  datatype MetaInfo = MetaInfo(pieceLength: nat, pieceHashes: seq<Hash160>, totalLength: nat, metaVersion: int,
                               v2Files: seq<V2File>, pieceLayers: map<Hash, seq<byte>>)

  datatype ParseError =
    | UnsafeName | BadPieceLength | BadMetaVersion | NotAPowerOfTwo | NoFileTree | BadFileTree(error: FileTree.TreeError) | NoV2Pieces
    | LayerNotMultiple | LayerWrongCount | LayerWrongRoot
    | NoPieces | PiecesNotMultiple | TooManyPieces | BadFiles | PieceCountDisagrees
    | HybridCountDisagrees | HybridLengthDisagrees

  /** Cutting layer bytes back into digests. */
  function HashesOf(bytes: seq<byte>): (hs: seq<Hash>) {
    Wrap(Chunks(bytes, DIGEST_SIZE))
  }

  function Wrap(cs: seq<seq<byte>>): (hs: seq<Hash>)
    ensures |hs| == |cs|
  {
    if cs == [] then [] else [Hash(cs[0])] + Wrap(cs[1..])
  }

  function Hash160sOf(bytes: seq<byte>): (hs: seq<Hash160>) {
    Wrap160(Chunks(bytes, SHA1_SIZE))
  }

  function Wrap160(cs: seq<seq<byte>>): (hs: seq<Hash160>)
    ensures |hs| == |cs|
  {
    if cs == [] then [] else [Hash160(cs[0])] + Wrap160(cs[1..])
  }

  function SumLengths(files: seq<FileInfo>, withPadding: bool): (n: int) {
    if files == [] then 0
    else SumLengths(files[..|files| - 1], withPadding)
         + if withPadding || !files[|files| - 1].padding then files[|files| - 1].length else 0
  }

  /** What setV2 asks of one file's 'piece layers' entry, when there is one. */
  predicate LayerOk(h: Sha256, layers: map<Hash, seq<byte>>, f: V2File, pieceLength: nat)
    requires pieceLength > 0 && IsPow2(pieceLength / BLOCK_SIZE)
  {
    f.length > 0 && f.root in layers ==>
      var bytes := layers[f.root];
      && |bytes| % DIGEST_SIZE == 0
      && |bytes| / DIGEST_SIZE == PiecesIn(f.length, pieceLength)
      && FileRootOf(h, HashesOf(bytes), pieceLength / BLOCK_SIZE) == f.root
  }

  /** The files of the file tree, in the order of the walk; none if the tree is missing or bad. */
  function V2FilesOf(w: InfoWire): (files: seq<V2File>) {
    match w.fileTree
    case None => []
    case Some(tree) => match FileTree.TreeFiles(tree) case Ok(files) => files case Err(_) => []
  }

  ghost predicate V2Acceptable(h: Sha256, w: InfoWire, layers: map<Hash, seq<byte>>)
    requires w.pieceLength >= MIN_PIECE_LENGTH
  {
    && IsPow2(w.pieceLength) && IsPow2(w.pieceLength / BLOCK_SIZE)
    && w.fileTree.Some? && FileTree.TreeFiles(w.fileTree.value).Ok?
    && TotalPieces(V2FilesOf(w), w.pieceLength) > 0
    && forall i :: 0 <= i < |V2FilesOf(w)| ==> LayerOk(h, layers, V2FilesOf(w)[i], w.pieceLength)
  }

  ghost predicate V1FilesAcceptable(w: InfoWire) {
    if w.files != [] then
      && w.length == 0 && (forall i :: 0 <= i < |w.files| ==> w.files[i].length >= 0 && ValidPath(w.files[i].path))
      && 0 < SumLengths(w.files, true) <= Bencode.MAX_INT64
    else w.length > 0
  }

  function V1Total(w: InfoWire): (n: int) {
    if w.files != [] then SumLengths(w.files, true) else w.length
  }

  function V1Real(w: InfoWire): (n: int) {
    if w.files != [] then SumLengths(w.files, false) else w.length
  }

  /** Exactly the info dictionaries that setInfo accepts, given the top-level piece layers. */
  ghost predicate Acceptable(h: Sha256, w: InfoWire, layers: map<Hash, seq<byte>>) {
    && ValidSegment(w.name) && MIN_PIECE_LENGTH <= w.pieceLength <= MAX_PIECE_LENGTH && (w.metaVersion == 0 || w.metaVersion == 2)
    && (w.metaVersion == 2 ==> V2Acceptable(h, w, layers))
    && (w.pieces == [] ==> w.metaVersion == 2)
    && (w.pieces != [] ==>
         && |w.pieces| % SHA1_SIZE == 0 && |w.pieces| / SHA1_SIZE <= MAX_PIECES && V1FilesAcceptable(w)
         && |w.pieces| / SHA1_SIZE == (V1Total(w) + w.pieceLength - 1) / w.pieceLength
         && (w.metaVersion == 2 ==>
              |w.pieces| / SHA1_SIZE == TotalPieces(V2FilesOf(w), w.pieceLength) && V1Real(w) == TotalLength(V2FilesOf(w))))
  }

  function MetaOf(w: InfoWire, layers: map<Hash, seq<byte>>): (mi: MetaInfo)
    requires w.pieceLength >= 0 && (w.pieces != [] ==> V1Total(w) >= 0)
  {
    var v2 := w.metaVersion == 2;
    MetaInfo(w.pieceLength, Hash160sOf(w.pieces), if w.pieces == [] then TotalLength(V2FilesOf(w)) else V1Total(w),
             w.metaVersion, if v2 then V2FilesOf(w) else [], if v2 then layers else map[])
  }

  lemma {:induction false} PositiveRunsOnly(files: seq<V2File>, pieceLength: nat, i: nat)
    requires pieceLength > 0 && i < |files| && files[i].length > 0
    ensures exists r :: 0 <= r < |RunsOf(files, pieceLength, |files|)| && RunsOf(files, pieceLength, |files|)[r].fileIndex == i
  {
    var r := RunOfFile(files, pieceLength, |files|, i);
  }

  /** setV2, in its order: the tree is walked, and the layers on record are checked. */
  method SetV2(h: Sha256, w: InfoWire, layers: map<Hash, seq<byte>>) returns (r: Result<seq<V2File>, ParseError>)
    requires w.pieceLength >= MIN_PIECE_LENGTH
    ensures r.Ok? <==> V2Acceptable(h, w, layers)
    ensures r.Ok? ==> r.value == V2FilesOf(w)
  {
    hide HashesOf, FileRootOf, PiecesIn, FirstPiece, RunsOf, LayerOk, FileTree.TreeFiles;
    var pieceLength := w.pieceLength;
    BitTrickIsPow2(pieceLength);
    if BitAnd(pieceLength, pieceLength - 1) != 0 {
      return Err(NotAPowerOfTwo);
    }
    PieceLengthInBlocks(pieceLength);
    if w.fileTree.None? {
      return Err(NoFileTree);
    }
    var walked := FileTree.ParseFileTree(w.fileTree.value);
    if walked.Err? {
      return Err(BadFileTree(walked.error));
    }
    var files := walked.value;
    var runs := BuildV2PieceRuns(files, pieceLength);
    var total := V2TotalPieces(files, pieceLength, runs);
    if total == 0 {
      return Err(NoV2Pieces);
    }
    var bad := CheckLayers(h, files, layers, pieceLength, runs);
    if bad.Some? {
      return Err(bad.value);
    }
    r := Ok(files);
  }

  /** The loop over the piece layers on record. */
  method CheckLayers(h: Sha256, files: seq<V2File>, layers: map<Hash, seq<byte>>, pieceLength: nat, runs: seq<Run>) returns (err: Option<ParseError>)
    requires pieceLength >= BLOCK_SIZE && IsPow2(pieceLength / BLOCK_SIZE) && runs == RunsOf(files, pieceLength, |files|)
    ensures err.None? <==> forall i :: 0 <= i < |files| ==> LayerOk(h, layers, files[i], pieceLength)
  {
    hide HashesOf, FileRootOf, PiecesIn, FirstPiece, RunsOf;
    RunsChained(files, pieceLength, |files|);
    var blocksPerPiece := pieceLength / BLOCK_SIZE;
    for r := 0 to |runs|
      invariant forall q :: 0 <= q < r ==> LayerOk(h, layers, files[runs[q].fileIndex], pieceLength)
    {
      var run := runs[r];
      assert RunRight(files, pieceLength, run);
      var f := files[run.fileIndex];
      RunLength(files, pieceLength, run.fileIndex);
      if f.root in layers {
        var layerBytes := layers[f.root];
        if |layerBytes| % DIGEST_SIZE != 0 {
          return Some(LayerNotMultiple);
        }
        if |layerBytes| / DIGEST_SIZE != run.numPieces {
          return Some(LayerWrongCount);
        }
        var root := FileRoot(h, HashesOf(layerBytes), blocksPerPiece);
        if root != f.root {
          return Some(LayerWrongRoot);
        }
      }
    }
    forall i | 0 <= i < |files| ensures LayerOk(h, layers, files[i], pieceLength) {
      if files[i].length > 0 {
        PositiveRunsOnly(files, pieceLength, i);
      }
    }
    err := None;
  }

  lemma {:induction false} RunLength(files: seq<V2File>, pieceLength: nat, k: nat)
    requires pieceLength > 0 && k < |files|
    ensures FirstPiece(files, pieceLength, k + 1) - FirstPiece(files, pieceLength, k) == PiecesIn(files[k].length, pieceLength)
  {
  }

  /** Without negative lengths no prefix is longer than the whole. */
  lemma {:induction false} PrefixIsShorter(files: seq<FileInfo>, i: nat)
    requires i <= |files| && forall j :: 0 <= j < |files| ==> files[j].length >= 0
    ensures SumLengths(files[..i], true) <= SumLengths(files, true)
  {
    if i == |files| {
      assert files[..i] == files;
    } else {
      var front := files[..|files| - 1];
      PrefixIsShorter(front, i);
      assert front[..i] == files[..i];
    }
  }

  /** setFiles, and the sums that setInfo and validateHybridConsistency take over its result. */
  method SetFiles(w: InfoWire) returns (ok: bool, total: int, realTotal: int)
    ensures ok <==> V1FilesAcceptable(w)
    ensures ok ==> total == V1Total(w) && realTotal == V1Real(w)
  {
    hide ValidPath;
    total, realTotal := 0, 0;
    if |w.files| > 0 {
      if w.length != 0 {
        return false, total, realTotal;
      }
      for i := 0 to |w.files|
        invariant forall j :: 0 <= j < i ==> w.files[j].length >= 0 && ValidPath(w.files[j].path)
        invariant 0 <= total <= Bencode.MAX_INT64 && total == SumLengths(w.files[..i], true) && realTotal == SumLengths(w.files[..i], false)
      {
        if w.files[i].length < 0 {
          return false, total, realTotal;
        }
        var valid := ValidatePath(w.files[i].path);
        if !valid {
          return false, total, realTotal;
        }
        assert w.files[..i + 1][..i] == w.files[..i];
        total := total + w.files[i].length;
        if total > Bencode.MAX_INT64 {
          // in 64 bits the sum of two lengths has just become negative
          ghost var fine := forall j :: 0 <= j < |w.files| ==> w.files[j].length >= 0;
          if fine {
            PrefixIsShorter(w.files, i + 1);
          }
          return false, total, realTotal;
        }
        if !w.files[i].padding {
          realTotal := realTotal + w.files[i].length;
        }
      }
      assert w.files[..|w.files|] == w.files;
      return total != 0, total, realTotal;
    }
    return w.length > 0, w.length, w.length;
  }

  method TotalV2Length(files: seq<V2File>) returns (total: nat)
    ensures total == TotalLength(files)
  {
    total := 0;
    for i := 0 to |files|
      invariant total == FileOffset(files, i)
    {
      total := total + files[i].length;
    }
  }

  method SetInfo(h: Sha256, w: InfoWire, layers: map<Hash, seq<byte>>) returns (r: Result<MetaInfo, ParseError>)
    ensures r.Ok? <==> Acceptable(h, w, layers)
    ensures r.Ok? ==> r.value == MetaOf(w, layers)
  {
    hide V2Acceptable, V1FilesAcceptable, SumLengths, FirstPiece, FileOffset, Hash160sOf, ValidSegment, V2FilesOf;
    var safe := ValidatePathSegment(w.name);
    if !safe {
      return Err(UnsafeName);
    }
    if w.pieceLength < MIN_PIECE_LENGTH || w.pieceLength > MAX_PIECE_LENGTH {
      return Err(BadPieceLength);
    }
    if w.metaVersion != 0 && w.metaVersion != 2 {
      return Err(BadMetaVersion);
    }
    var files: seq<V2File> := [];
    if w.metaVersion == 2 {
      var v2Files := SetV2(h, w, layers);
      if v2Files.Err? {
        return Err(v2Files.error);
      }
      files := v2Files.value;
    }
    if |w.pieces| == 0 {
      if w.metaVersion != 2 {
        return Err(NoPieces);
      }
      var total := TotalV2Length(files);
      assert Hash160sOf([]) == [] by { EmptyPieces(); }
      return Ok(MetaInfo(w.pieceLength, [], total, 2, files, layers));
    }
    if |w.pieces| % SHA1_SIZE != 0 {
      return Err(PiecesNotMultiple);
    }
    var numPieces := |w.pieces| / SHA1_SIZE;
    if numPieces > MAX_PIECES {
      return Err(TooManyPieces);
    }
    var ok, total, realLength := SetFiles(w);
    if !ok {
      return Err(BadFiles);
    }
    if numPieces != (total + w.pieceLength - 1) / w.pieceLength {
      return Err(PieceCountDisagrees);
    }
    if w.metaVersion == 2 {
      var runs := BuildV2PieceRuns(files, w.pieceLength);
      var v2Pieces := V2TotalPieces(files, w.pieceLength, runs);
      if numPieces != v2Pieces {
        return Err(HybridCountDisagrees);
      }
      var v2Total := TotalV2Length(files);
      if realLength != v2Total {
        return Err(HybridLengthDisagrees);
      }
    }
    TotalNonNegative(w);
    var v2 := w.metaVersion == 2;
    r := Ok(MetaInfo(w.pieceLength, Hash160sOf(w.pieces), total, w.metaVersion, files,
                     if v2 then layers else map[]));
  }

  lemma {:induction false} EmptyPieces()
    ensures Hash160sOf([]) == []
  {
  }

  lemma {:induction false} TotalNonNegative(w: InfoWire)
    requires V1FilesAcceptable(w)
    ensures V1Total(w) >= 0
  {
  }
}
