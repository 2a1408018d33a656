/** Building torrents: hashPieces of internal/metainfo/create.go and buildV2 of create_v2.go. */
module Create {
  import opened Bytes
  import opened Merkle
  import opened HashFile
  import opened Paths

  /** A file to put in a torrent: `src` is what reading it gives, `length` what was declared. */
  datatype CreateFile = CreateFile(path: Path, src: seq<byte>, length: int) {
    predicate Readable() {
      0 <= length <= |src|
    }

    function Content(): (data: seq<byte>)
      requires Readable()
    {
      src[..length]
    }
  }

  predicate AllReadable(files: seq<CreateFile>) {
    forall i :: 0 <= i < |files| ==> files[i].Readable()
  }

  /** The files' contents laid end to end. */
  function StreamOf(files: seq<CreateFile>): (stream: seq<byte>)
    requires AllReadable(files)
  {
    if files == [] then [] else StreamOf(files[..|files| - 1]) + files[|files| - 1].Content()
  }

  lemma {:induction false} StreamSnoc(files: seq<CreateFile>, f: CreateFile)
    requires AllReadable(files) && f.Readable()
    ensures AllReadable(files + [f]) && StreamOf(files + [f]) == StreamOf(files) + f.Content()
  {
    assert (files + [f])[..|files|] == files;
  }

  // ---------- hashPieces ----------

  /** How far hashPieces is: `full` pieces flushed, `fed` bytes in the open hasher. */
  ghost predicate Feeding(s1: Sha1, pieceLength: nat, stream: seq<byte>, pieces: seq<byte>, full: seq<seq<byte>>, fed: seq<byte>) {
    && Uniform(full, pieceLength) && |fed| < pieceLength
    && stream == Flatten(full) + fed && pieces == Sha1s(s1, full)
  }

  lemma {:induction false} Fed(s1: Sha1, pieceLength: nat, stream: seq<byte>, pieces: seq<byte>, full: seq<seq<byte>>, fed: seq<byte>, more: seq<byte>)
    requires Feeding(s1, pieceLength, stream, pieces, full, fed) && |fed + more| <= pieceLength
    ensures |fed + more| < pieceLength ==> Feeding(s1, pieceLength, stream + more, pieces, full, fed + more)
    ensures |fed + more| == pieceLength ==>
              Feeding(s1, pieceLength, stream + more, pieces + s1(fed + more).bytes, full + [fed + more], [])
  {
    assert Flatten(full) + fed + more == Flatten(full) + (fed + more);
    FlattenSnoc(full, fed + more);
    Sha1sAppend(s1, full, [fed + more]);
    assert Sha1s(s1, [fed + more]) == s1(fed + more).bytes + [];
  }

  lemma {:induction false} AllFed(s1: Sha1, pieceLength: nat, stream: seq<byte>, pieces: seq<byte>, full: seq<seq<byte>>, fed: seq<byte>)
    requires pieceLength > 0 && Feeding(s1, pieceLength, stream, pieces, full, fed)
    ensures V1PiecesOf(s1, stream, pieceLength) == pieces + if fed == [] then [] else s1(fed).bytes
  {
    ChunksOfFull(full, fed, pieceLength);
    Sha1sAppend(s1, full, [fed]);
    assert full + [] == full;
    assert Sha1s(s1, [fed]) == s1(fed).bytes + [];
  }

  /** One file's bytes go into the rolling hasher; None is the "shorter than declared" error. */
  method FeedFile(s1: Sha1, f: CreateFile, pieceLength: nat, stream: seq<byte>, pieces0: seq<byte>, fed0: seq<byte>,
                  ghost full0: seq<seq<byte>>)
    returns (ok: bool, pieces: seq<byte>, fed: seq<byte>, ghost full: seq<seq<byte>>)
    requires f.length >= 0 && Feeding(s1, pieceLength, stream, pieces0, full0, fed0)
    ensures ok <==> f.Readable()
    ensures ok ==> Feeding(s1, pieceLength, stream + f.Content(), pieces, full, fed)
  {
    hide Flatten, Uniform, Sha1s;
    pieces, fed, full := pieces0, fed0, full0;
    var remaining := f.length;
    assert stream + f.src[..0] == stream;
    while remaining > 0
      invariant 0 <= remaining <= f.length && f.length - remaining <= |f.src|
      invariant Feeding(s1, pieceLength, stream + f.src[..f.length - remaining], pieces, full, fed)
    {
      var read := f.length - remaining;
      var want := if pieceLength - |fed| > remaining then remaining else pieceLength - |fed|;
      var n := Min(want, |f.src| - read);
      if n == 0 {
        return false, pieces, fed, full;
      }
      var chunk := f.src[read..read + n];
      Fed(s1, pieceLength, stream + f.src[..read], pieces, full, fed, chunk);
      assert stream + f.src[..read] + chunk == stream + f.src[..read + n];
      fed := fed + chunk;
      remaining := remaining - n;
      if |fed| == pieceLength {
        full := full + [fed];
        pieces := pieces + s1(fed).bytes;
        fed := [];
      }
    }
    ok := true;
  }

  /** hashPieces: BEP 3's pieces, which do not respect file boundaries. */
  method HashPieces(s1: Sha1, files: seq<CreateFile>, pieceLength: nat) returns (res: Option<seq<byte>>)
    requires pieceLength > 0 && forall i :: 0 <= i < |files| ==> files[i].length >= 0
    ensures res.Some? <==> AllReadable(files)
    ensures res.Some? ==> res.value == V1PiecesOf(s1, StreamOf(files), pieceLength)
  {
    var pieces: seq<byte>, fed: seq<byte> := [], [];
    ghost var full: seq<seq<byte>> := [];
    for i := 0 to |files|
      invariant AllReadable(files[..i])
      invariant Feeding(s1, pieceLength, StreamOf(files[..i]), pieces, full, fed)
    {
      assert files[..i + 1] == files[..i] + [files[i]];
      if files[i].length != 0 {
        var ok;
        ok, pieces, fed, full := FeedFile(s1, files[i], pieceLength, StreamOf(files[..i]), pieces, fed, full);
        if !ok {
          return None;
        }
      }
      StreamSnoc(files[..i], files[i]);
      assert files[i].length == 0 ==> StreamOf(files[..i]) + files[i].Content() == StreamOf(files[..i]);
    }
    assert files[..|files|] == files;
    AllFed(s1, pieceLength, StreamOf(files), pieces, full, fed);
    if |fed| > 0 {
      pieces := pieces + s1(fed).bytes;
    }
    res := Some(pieces);
  }
}
