/** A built torrent checks out piece by piece on the content it was built from. */
module VerifyBuilt {
  import opened Bytes
  import opened Merkle
  import opened HashFile
  import opened Create
  import opened BuildV2
  import opened Geometry
  import opened MetaInfo
  import opened BuiltParses
  import opened Verify
  import opened ShortPiece

  // ---------- verifyPiece ----------

  datatype VerifyError = HashesDisagree

  predicate IsPureV2(mi: MetaInfo) {
    mi.metaVersion == 2 && mi.pieceHashes == []
  }

  /** PieceLen; 0 out of range. */
  function LengthOfPiece(mi: MetaInfo, index: int): (n: int)
    requires mi.pieceLength > 0
  {
    var n := |mi.pieceHashes|;
    if n > 0 then
      if !(0 <= index < n) then 0
      else if index == n - 1 then mi.totalLength - Scale(n - 1, mi.pieceLength)
      else mi.pieceLength
    else if mi.metaVersion != 2 || !(0 <= index < TotalPieces(mi.v2Files, mi.pieceLength)) then 0
    else PieceLen(mi.v2Files, mi.pieceLength, index)
  }

  /** PieceOffset: v1 and hybrid pieces tile the flat stream, pure-v2 pieces their own files. */
  function OffsetOfPiece(mi: MetaInfo, index: nat): (off: int)
    requires mi.pieceLength > 0 && LengthOfPiece(mi, index) > 0
  {
    if IsPureV2(mi) then PieceOffset(mi.v2Files, mi.pieceLength, index) else Scale(index, mi.pieceLength)
  }

  /** verifyPiece against what is on disk: `disk` is the storage's flat byte space. */
  function PieceVerdict(h: Sha256, s1: Sha1, mi: MetaInfo, index: nat, disk: seq<byte>): (r: Result<bool, VerifyError>)
    requires Geometric(mi)
  {
    if LengthOfPiece(mi, index) <= 0 then Ok(false)
    else
      var off, len := OffsetOfPiece(mi, index), LengthOfPiece(mi, index);
      if off < 0 || off + len > |disk| then Ok(false)
      else
        var p := disk[off..off + len];
        if IsPureV2(mi) then Ok(V2Verdict(h, mi, index, p))
        else if index >= |mi.pieceHashes| then Ok(false)
        else
          var v1Ok := s1(p) == mi.pieceHashes[index];
          if mi.metaVersion != 2 then Ok(v1Ok)
          else if v1Ok != V2Verdict(h, mi, index, p) then Err(HashesDisagree)
          else Ok(v1Ok)
  }

  // ---------- the parsed torrent describes the files ----------

  /** The parsed files are `files`, in the same order. */
  ghost predicate InOrder(h: Sha256, files: seq<CreateFile>, size: nat, v2: seq<V2File>)
    requires AllReadable(files) && size > 0 && IsPow2(size / BLOCK_SIZE)
  {
    |v2| == |files| &&
    forall i :: 0 <= i < |files| ==> TreeEntry(v2[i].length, v2[i].root) == EntryOf(h, files[i], size, size / BLOCK_SIZE)
  }

  lemma {:induction false} ManyPieces(content: seq<byte>, size: nat)
    requires size > 0 && |content| > size
    ensures |Chunks(content, size)| > 1
  {
    ChunksUnfold(content, size);
    ChunksUnfold(content[size..], size);
  }

  /** Without root clashes every parsed file carries its own layer, or two roots collide. */
  lemma {:induction false} BuiltDescribes(h: Sha256, files: seq<CreateFile>, mi: MetaInfo, i: nat, k: nat) returns (c: Option<Collision>)
    requires AllReadable(files) && Geometric(mi) && i < |files| && k < |mi.v2Files| && files[i].length > 0
    requires NoRootClash(h, files, mi.pieceLength, mi.pieceLength / BLOCK_SIZE)
    requires mi.pieceLayers == LayersOf(h, files, mi.pieceLength, mi.pieceLength / BLOCK_SIZE)
    requires TreeEntry(mi.v2Files[k].length, mi.v2Files[k].root) == EntryOf(h, files[i], mi.pieceLength, mi.pieceLength / BLOCK_SIZE)
    ensures match c
            case None => Describes(h, mi, k, files[i])
            case Some(clash) => Collides(h, clash)
  {
    hide PieceRoots, BytesOf, LayersOf, RootOf, Chunks;
    var size, bpp := mi.pieceLength, mi.pieceLength / BLOCK_SIZE;
    var f := files[i];
    c := None;
    if f.length > size {
      ManyPieces(f.Content(), size);
      var g := LayersAre(h, files, size, bpp, f);
      assert SharesRoot(h, f, f, size, bpp);
      var mine, listed := RootsOf(h, f, size, bpp), RootsOf(h, files[g], size, bpp);
      if mine != listed {
        PadInjective(mine, listed, NextPow2Of(|mine|), ZeroPiece(h, bpp));
        c := Some(TreeCollision(h, PadWith(mine, NextPow2Of(|mine|), ZeroPiece(h, bpp)),
                                PadWith(listed, NextPow2Of(|mine|), ZeroPiece(h, bpp))));
      }
    }
  }

  lemma {:induction false} PadInjective(a: seq<Hash>, b: seq<Hash>, n: nat, filler: Hash)
    requires |a| == |b| <= n && a != b
    ensures PadWith(a, n, filler) != PadWith(b, n, filler)
  {
    assert PadWith(a, n, filler)[..|a|] == a && PadWith(b, n, filler)[..|b|] == b;
  }

  // ---------- pieces of files are pieces of the torrent ----------

  lemma {:induction false} FilePiecesAt(h: Sha256, files: seq<CreateFile>, size: nat, v2: seq<V2File>, k: nat, j: nat)
    requires AllReadable(files) && size > 0 && IsPow2(size / BLOCK_SIZE) && InOrder(h, files, size, v2)
    requires k < |files| && j < |Chunks(files[k].Content(), size)|
    ensures |FilePieces(files, size)| == TotalPieces(v2, size)
    ensures FirstPiece(v2, size, k) + j < |FilePieces(files, size)|
    ensures FilePieces(files, size)[FirstPiece(v2, size, k) + j] == Chunks(files[k].Content(), size)[j]
  {
    hide Chunks, EntryOf, PiecesIn;
    var n := |files| - 1;
    var front, last := files[..n], files[n];
    PieceCount(last.Content(), size);
    EntryLength(h, last, size, size / BLOCK_SIZE);
    FilePiecesCount(h, front, size, v2[..n]);
    PrefixTotals(v2, v2[..n], size, n);
    if k < n {
      FilePiecesAt(h, front, size, v2[..n], k, j);
      PrefixTotals(v2, v2[..n], size, k);
    }
  }

  lemma {:induction false} FilePiecesCount(h: Sha256, files: seq<CreateFile>, size: nat, v2: seq<V2File>)
    requires AllReadable(files) && size > 0 && IsPow2(size / BLOCK_SIZE) && InOrder(h, files, size, v2)
    ensures |FilePieces(files, size)| == TotalPieces(v2, size)
    ensures TotalLength(v2) == |StreamOf(files)|
  {
    hide Chunks, EntryOf, PiecesIn;
    if files != [] {
      var n := |files| - 1;
      FilePiecesCount(h, files[..n], size, v2[..n]);
      PieceCount(files[n].Content(), size);
      EntryLength(h, files[n], size, size / BLOCK_SIZE);
      PrefixTotals(v2, v2[..n], size, n);
    }
  }

  /** The i-th piece over all files is the i-th piece of the torrent, cut from its own file. */
  lemma {:induction false} PieceOfFile(h: Sha256, files: seq<CreateFile>, mi: MetaInfo, index: nat)
    requires AllReadable(files) && Geometric(mi) && InOrder(h, files, mi.pieceLength, mi.v2Files)
    requires index < TotalPieces(mi.v2Files, mi.pieceLength)
    ensures |FilePieces(files, mi.pieceLength)| == TotalPieces(mi.v2Files, mi.pieceLength)
    ensures var k := FileOf(mi.v2Files, mi.pieceLength, index);
            && mi.v2Files[k].length == files[k].length > 0
            && FilePieces(files, mi.pieceLength)[index] == PieceBytes(mi, files[k], index)
  {
    hide Chunks, PiecesIn, FirstPiece, FileBelow, FilePieces, PieceBytes, EntryOf;
    var k := FileOf(mi.v2Files, mi.pieceLength, index);
    CoveredIsNonEmpty(mi.v2Files, mi.pieceLength, k, index);
    EntryLength(h, files[k], mi.pieceLength, mi.pieceLength / BLOCK_SIZE);
    PieceBytesAreChunk(mi, files[k], index);
    FilePiecesAt(h, files, mi.pieceLength, mi.v2Files, k, index - FirstPiece(mi.v2Files, mi.pieceLength, k));
  }

  // ---------- hybrid torrents ----------

  lemma {:induction false} DigestsAt(s1: Sha1, pieces: seq<seq<byte>>, i: nat)
    requires IsSha1(s1) && i < |pieces|
    ensures |Hash160sOf(Sha1s(s1, pieces))| == |pieces| && Hash160sOf(Sha1s(s1, pieces))[i] == s1(pieces[i])
  {
    DigestsRoundTrip(s1, pieces);
    if i > 0 {
      DigestsAt(s1, pieces[1..], i - 1);
    }
  }

  lemma {:induction false} DigestsRoundTrip(s1: Sha1, pieces: seq<seq<byte>>)
    requires IsSha1(s1)
    ensures Hash160sOf(Sha1s(s1, pieces)) == if pieces == [] then [] else [s1(pieces[0])] + Hash160sOf(Sha1s(s1, pieces[1..]))
    ensures |Hash160sOf(Sha1s(s1, pieces))| == |pieces|
  {
    if pieces != [] {
      DigestsRoundTrip(s1, pieces[1..]);
      var bytes := Sha1s(s1, pieces);
      assert bytes[..SHA1_SIZE] == s1(pieces[0]).bytes && bytes[SHA1_SIZE..] == Sha1s(s1, pieces[1..]);
      ChunksUnfold(bytes, SHA1_SIZE);
    }
  }

  /** The v1 piece length and offset of a piece pick out the piece's chunk of the stream. */
  lemma {:induction false} V1PieceIsChunk(mi: MetaInfo, stream: seq<byte>, index: nat)
    requires mi.pieceLength > 0 && |mi.pieceHashes| == |Chunks(stream, mi.pieceLength)| && index < |mi.pieceHashes|
    requires mi.totalLength == |stream|
    ensures var off, len := Scale(index, mi.pieceLength), LengthOfPiece(mi, index);
            && 0 <= off && 0 < len && off + len <= |stream|
            && stream[off..off + len] == Chunks(stream, mi.pieceLength)[index]
  {
    hide Chunks;
    var size, n := mi.pieceLength, |mi.pieceHashes|;
    ChunkAt(stream, size, index);
    ChunksCount(stream, size);
    ScaleIsProduct(index, size);
    ScaleIsProduct(index + 1, size);
    LastChunkEnds(|stream|, size);
    ScaleIsProduct(n, size);
    ScaleIsProduct(n - 1, size);
    if index < n - 1 {
      ScaleMonotone(index + 1, n - 1, size);
    }
  }

  lemma {:induction false} LastChunkEnds(length: nat, size: nat)
    requires size > 0 && length > 0
    ensures var n := (length + size - 1) / size; (n - 1) * size < length <= n * size
  {
    PiecesInPositive(length, size);
    var n := PiecesIn(length, size);
    ScaleIsProduct(n, size);
    ScaleIsProduct(n - 1, size);
  }

  /** The parsed form of a hybrid torrent over the given entries and file order. */
  ghost predicate HybridMeta(h: Sha256, s1: Sha1, files: seq<CreateFile>, entries: seq<V1Entry>, mi: MetaInfo)
    requires AllReadable(files) && Geometric(mi)
  {
    && NoRootClash(h, files, mi.pieceLength, mi.pieceLength / BLOCK_SIZE) && AllReadable(Files(entries))
    && mi.pieceLayers == LayersOf(h, files, mi.pieceLength, mi.pieceLength / BLOCK_SIZE)
    && mi.metaVersion == 2
    && mi.totalLength == |StreamOf(Files(entries))|
    && (exists v1Pieces :: HybridOf(s1, files, entries, v1Pieces, mi.pieceLength) && mi.pieceHashes == Hash160sOf(v1Pieces))
  }

  /**
   * A hybrid torrent whose files were given in the order of its file tree: every piece of the padded
   * v1 stream passes both hashes, so verifyPiece reports it good, or SHA-256 collides.
   */
  lemma {:induction false} HybridPieceVerifies(h: Sha256, s1: Sha1, files: seq<CreateFile>, entries: seq<V1Entry>, mi: MetaInfo, index: nat)
    returns (c: Option<Collision>)
    requires IsSha256(h) && IsSha1(s1) && AllReadable(files) && Geometric(mi) && HybridMeta(h, s1, files, entries, mi)
    requires InOrder(h, files, mi.pieceLength, mi.v2Files) && index < TotalPieces(mi.v2Files, mi.pieceLength)
    ensures match c
            case None => PieceVerdict(h, s1, mi, index, StreamOf(Files(entries))) == Ok(true)
            case Some(clash) => Collides(h, clash)
  {
    hide Chunks, PiecesIn, FirstPiece, FileBelow, FilePieces, PieceBytes, EntryOf, LayersOf, NoRootClash, Describes, V2Verdict,
         Sha1s, Hash160sOf, RealFiles, Aligned, StreamOf, Files;
    var size := mi.pieceLength;
    var stream := StreamOf(Files(entries));
    var chunks := Chunks(stream, size);
    var k := FileOf(mi.v2Files, size, index);
    PieceOfFile(h, files, mi, index);
    c := BuiltDescribes(h, files, mi, k, k);
    if c.None? {
      DigestsAt(s1, chunks, index);
      V1PieceIsChunk(mi, stream, index);
      assert ZeroExtends(FilePieces(files, size)[index], chunks[index]);
      var bytes := PieceBytes(mi, files[k], index);
      assert chunks[index] == bytes + chunks[index][|bytes|..];
      OwnBytesVerify(h, mi, files[k], index, chunks[index][|bytes|..]);
    }
  }

  /** What lies on disk passes for the piece: it starts with the piece's own bytes, or it is the twin of a file's only piece. */
  predicate PassesFor(h: Sha256, mi: MetaInfo, f: CreateFile, index: nat, chunk: seq<byte>)
    requires Geometric(mi) && index < TotalPieces(mi.v2Files, mi.pieceLength) && f.Readable()
    requires mi.v2Files[FileOf(mi.v2Files, mi.pieceLength, index)].length == f.length
  {
    PieceBytes(mi, f, index) <= chunk || (f.length <= mi.pieceLength && IsTwin(h, chunk, PieceBytes(mi, f, index)))
  }

  /** The v2 check of any stretch, short or long. */
  lemma {:induction false} V2VerdictIff(h: Sha256, mi: MetaInfo, f: CreateFile, index: nat, chunk: seq<byte>) returns (w: Option<Break>)
    requires IsSha256(h) && Geometric(mi) && index < TotalPieces(mi.v2Files, mi.pieceLength) && chunk != []
    requires Describes(h, mi, FileOf(mi.v2Files, mi.pieceLength, index), f)
    ensures match w
            case None => V2Verdict(h, mi, index, chunk) == PassesFor(h, mi, f, index, chunk)
            case Some(x) => Breaks(h, x)
  {
    hide PiecesIn, FirstPiece, FileBelow, V2Verdict, IsTwin, PieceLen, PieceBytes;
    BytesOfPiece(mi, f, index);
    if |chunk| < PieceLen(mi.v2Files, mi.pieceLength, index) {
      w := ShortVerdict(h, mi, f, index, chunk);
    } else {
      w := LongVerdict(h, mi, f, index, chunk);
    }
  }

  lemma {:induction false} BytesOfPiece(mi: MetaInfo, f: CreateFile, index: nat)
    requires Geometric(mi) && index < TotalPieces(mi.v2Files, mi.pieceLength) && f.Readable()
    requires mi.v2Files[FileOf(mi.v2Files, mi.pieceLength, index)].length == f.length
    ensures |PieceBytes(mi, f, index)| == PieceLen(mi.v2Files, mi.pieceLength, index)
  {
    hide PiecesIn, FirstPiece, FileBelow;
    PieceInsideFile(mi.v2Files, mi.pieceLength, index);
  }

  lemma {:induction false} LongVerdict(h: Sha256, mi: MetaInfo, f: CreateFile, index: nat, chunk: seq<byte>) returns (w: Option<Break>)
    requires IsSha256(h) && Geometric(mi) && index < TotalPieces(mi.v2Files, mi.pieceLength)
    requires Describes(h, mi, FileOf(mi.v2Files, mi.pieceLength, index), f)
    requires |chunk| >= PieceLen(mi.v2Files, mi.pieceLength, index)
    ensures match w
            case None => V2Verdict(h, mi, index, chunk) == PassesFor(h, mi, f, index, chunk)
            case Some(x) => Breaks(h, x)
  {
    hide PiecesIn, FirstPiece, FileBelow, V2Verdict, IsTwin, PieceLen, PieceBytes, LeavesOf, PieceRootOf;
    var bytes := PieceBytes(mi, f, index);
    BytesOfPiece(mi, f, index);
    w := None;
    if IsTwin(h, chunk, bytes) {
      TwinHasTheRoot(h, chunk, bytes, mi.pieceLength / BLOCK_SIZE);
    }
    if V2Verdict(h, mi, index, chunk) {
      var c := OnlyOwnBytesVerify(h, mi, f, index, chunk);
      w := if c.None? then None else Some(Clash(c.value));
    } else if bytes <= chunk {
      assert chunk == bytes + chunk[|bytes|..];
      OwnBytesVerify(h, mi, f, index, chunk[|bytes|..]);
    }
  }

  lemma {:induction false} HybridMetaMeans(h: Sha256, s1: Sha1, files: seq<CreateFile>, entries: seq<V1Entry>, mi: MetaInfo)
    requires IsSha1(s1) && AllReadable(files) && Geometric(mi) && HybridMeta(h, s1, files, entries, mi)
    ensures NoRootClash(h, files, mi.pieceLength, mi.pieceLength / BLOCK_SIZE)
    ensures mi.pieceLayers == LayersOf(h, files, mi.pieceLength, mi.pieceLength / BLOCK_SIZE)
    ensures AllReadable(Files(entries)) && |Chunks(StreamOf(Files(entries)), mi.pieceLength)| == |mi.pieceHashes|
  {
    hide NoRootClash, LayersOf, StreamOf, Files, Hash160sOf, Sha1s, Chunks;
    DigestsRoundTrip(s1, Chunks(StreamOf(Files(entries)), mi.pieceLength));
  }

  /** On its own stream the v1 hash of a piece always passes, so the v2 one decides. */
  lemma {:induction false} HybridVerdict(h: Sha256, s1: Sha1, files: seq<CreateFile>, entries: seq<V1Entry>, mi: MetaInfo, index: nat)
    requires IsSha256(h) && IsSha1(s1) && AllReadable(files) && Geometric(mi) && HybridMeta(h, s1, files, entries, mi) && index < |mi.pieceHashes|
    ensures |Chunks(StreamOf(Files(entries)), mi.pieceLength)| == |mi.pieceHashes| && Chunks(StreamOf(Files(entries)), mi.pieceLength)[index] != []
    ensures PieceVerdict(h, s1, mi, index, StreamOf(Files(entries)))
         == if V2Verdict(h, mi, index, Chunks(StreamOf(Files(entries)), mi.pieceLength)[index]) then Ok(true) else Err(HashesDisagree)
  {
    hide Chunks, PiecesIn, FirstPiece, FilePieces, LayersOf, NoRootClash, V2Verdict, Sha1s, Hash160sOf, RealFiles, Aligned, StreamOf, Files;
    var stream := StreamOf(Files(entries));
    var chunks := Chunks(stream, mi.pieceLength);
    DigestsRoundTrip(s1, chunks);
    DigestsAt(s1, chunks, index);
    V1PieceIsChunk(mi, stream, index);
  }

  /**
   * A hybrid torrent whatever the order of its file tree: a piece passes exactly when the stretch of
   * the padded v1 stream at its index starts with the piece's own bytes or is its twin, and otherwise the
   * two hashes disagree, or SHA-256 is broken. File i of the builder's list is the one the piece belongs to.
   */
  lemma {:induction false} HybridPieceVerifiesIff(h: Sha256, s1: Sha1, files: seq<CreateFile>, entries: seq<V1Entry>, mi: MetaInfo, index: nat, i: nat)
    returns (w: Option<Break>)
    requires IsSha256(h) && IsSha1(s1) && AllReadable(files) && Geometric(mi) && HybridMeta(h, s1, files, entries, mi)
    requires index < TotalPieces(mi.v2Files, mi.pieceLength) && index < |mi.pieceHashes|
    requires i < |files| && files[i].length > 0
    requires var v := mi.v2Files[FileOf(mi.v2Files, mi.pieceLength, index)];
             v.length == files[i].length && TreeEntry(v.length, v.root) == EntryOf(h, files[i], mi.pieceLength, mi.pieceLength / BLOCK_SIZE)
    ensures |Chunks(StreamOf(Files(entries)), mi.pieceLength)| == |mi.pieceHashes|
    ensures match w
            case None =>
              PieceVerdict(h, s1, mi, index, StreamOf(Files(entries)))
                == if PassesFor(h, mi, files[i], index, Chunks(StreamOf(Files(entries)), mi.pieceLength)[index]) then Ok(true) else Err(HashesDisagree)
            case Some(x) => Breaks(h, x)
  {
    hide Chunks, PiecesIn, FirstPiece, FileBelow, FilePieces, PieceBytes, EntryOf, LayersOf, NoRootClash, Describes, V2Verdict,
         PieceVerdict, HybridMeta, RealFiles, Aligned, StreamOf, Files, PieceLen, PassesFor;
    HybridMetaMeans(h, s1, files, entries, mi);
    HybridVerdict(h, s1, files, entries, mi, index);
    var chunks := Chunks(StreamOf(Files(entries)), mi.pieceLength);
    var k := FileOf(mi.v2Files, mi.pieceLength, index);
    var c := BuiltDescribes(h, files, mi, i, k);
    if c.Some? {
      w := Some(Clash(c.value));
    } else {
      w := V2VerdictIff(h, mi, files[i], index, chunks[index]);
    }
  }

  /** A pure-v2 torrent: its files packed back to back pass, in whatever order the tree has them. */
  lemma {:induction false} PureV2PieceVerifies(h: Sha256, s1: Sha1, files: seq<CreateFile>, ordered: seq<CreateFile>, mi: MetaInfo, index: nat, i: nat)
    returns (c: Option<Collision>)
    requires IsSha256(h) && AllReadable(files) && AllReadable(ordered) && Geometric(mi) && IsPureV2(mi)
    requires NoRootClash(h, files, mi.pieceLength, mi.pieceLength / BLOCK_SIZE)
    requires mi.pieceLayers == LayersOf(h, files, mi.pieceLength, mi.pieceLength / BLOCK_SIZE)
    requires InOrder(h, ordered, mi.pieceLength, mi.v2Files) && index < TotalPieces(mi.v2Files, mi.pieceLength)
    requires i < |files| && files[i] == ordered[FileOf(mi.v2Files, mi.pieceLength, index)]
    ensures match c
            case None => PieceVerdict(h, s1, mi, index, StreamOf(ordered)) == Ok(true)
            case Some(clash) => Collides(h, clash)
  {
    hide Chunks, PiecesIn, FirstPiece, FileBelow, FilePieces, EntryOf, LayersOf, NoRootClash, Describes, V2Verdict, StreamOf,
         PieceOffset, PieceLen, PieceBytes;
    var size := mi.pieceLength;
    var k := FileOf(mi.v2Files, size, index);
    PieceOfFile(h, ordered, mi, index);
    c := BuiltDescribes(h, files, mi, i, k);
    if c.None? {
      PieceOnDisk(h, ordered, mi, index);
      OwnBytesVerify(h, mi, files[i], index, []);
      assert PieceBytes(mi, files[i], index) + [] == PieceBytes(mi, files[i], index);
    }
  }

  lemma {:induction false} SliceOfSlice(s: seq<byte>, start: nat, n: nat, off: nat, len: nat)
    requires start + n <= |s| && off + len <= n
    ensures s[start..start + n][off..off + len] == s[start + off..start + off + len]
  {
    var a, b := s[start..start + n][off..off + len], s[start + off..start + off + len];
    assert forall i :: 0 <= i < len ==> a[i] == b[i];
  }

  lemma {:induction false} SliceOfPrefix(s: seq<byte>, t: seq<byte>, off: nat, n: nat)
    requires off + n <= |s|
    ensures off + n <= |s + t| && (s + t)[off..off + n] == s[off..off + n]
  {
  }

  /** Reading a pure-v2 piece at its offset gives the piece's bytes. */
  lemma {:induction false} PieceOnDisk(h: Sha256, ordered: seq<CreateFile>, mi: MetaInfo, index: nat)
    requires AllReadable(ordered) && Geometric(mi) && InOrder(h, ordered, mi.pieceLength, mi.v2Files) && IsPureV2(mi)
    requires index < TotalPieces(mi.v2Files, mi.pieceLength)
    requires mi.v2Files[FileOf(mi.v2Files, mi.pieceLength, index)].length
          == ordered[FileOf(mi.v2Files, mi.pieceLength, index)].length
    ensures var off, len := PieceOffset(mi.v2Files, mi.pieceLength, index), PieceLen(mi.v2Files, mi.pieceLength, index);
            && 0 <= off && 0 < len && off + len <= |StreamOf(ordered)|
            && StreamOf(ordered)[off..off + len] == PieceBytes(mi, ordered[FileOf(mi.v2Files, mi.pieceLength, index)], index)
  {
    hide Chunks, PiecesIn, FirstPiece, FileBelow, FilePieces, EntryOf, StreamOf, OffsetInFile, FileOffset, Scale;
    var size := mi.pieceLength;
    var k := FileOf(mi.v2Files, size, index);
    PieceInsideFile(mi.v2Files, size, index);
    FileInStream(h, ordered, size, mi.v2Files, k);
    SliceOfSlice(StreamOf(ordered), FileOffset(mi.v2Files, k), ordered[k].length,
                 OffsetInFile(mi.v2Files, size, index), PieceLen(mi.v2Files, size, index));
  }

  lemma {:induction false} FileInStream(h: Sha256, files: seq<CreateFile>, size: nat, v2: seq<V2File>, k: nat)
    requires AllReadable(files) && size > 0 && IsPow2(size / BLOCK_SIZE) && InOrder(h, files, size, v2) && k < |files|
    ensures FileOffset(v2, k) + files[k].length <= |StreamOf(files)|
    ensures StreamOf(files)[FileOffset(v2, k)..FileOffset(v2, k) + files[k].length] == files[k].Content()
  {
    hide EntryOf, Chunks, PiecesIn;
    var n := |files| - 1;
    assert StreamOf(files) == StreamOf(files[..n]) + files[n].Content();
    FilePiecesCount(h, files[..n], size, v2[..n]);
    PrefixTotals(v2, v2[..n], size, k);
    if k < n {
      FileInStream(h, files[..n], size, v2[..n], k);
      var off := FileOffset(v2, k);
      hide FileOffset, StreamOf, PiecesIn;
      SliceOfPrefix(StreamOf(files[..n]), files[n].Content(), off, files[k].length);
    }
  }
}
