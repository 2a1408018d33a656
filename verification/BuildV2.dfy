/** buildV2 of internal/metainfo/create_v2.go: the v2 and hybrid torrent builder. */
module BuildV2 {
  import opened Bytes
  import opened Merkle
  import opened HashFile
  import opened Decimal
  import opened Create
  import opened Paths
  import Bencode
  import FileTree

  /** An entry of the v1 file list: a real file, or a BEP 47 padding file, which reads as zeros. */
  datatype V1Entry = V1Entry(file: CreateFile, padding: bool)

  function PadEntry(n: nat): (e: V1Entry)
    ensures e.padding && e.file.Readable() && e.file.Content() == Zeros(n) && e.file.length == n
  {
    V1Entry(CreateFile([".pad", Itoa(n)], Zeros(n), n), true)
  }

  function Files(entries: seq<V1Entry>): (files: seq<CreateFile>)
    ensures |files| == |entries| && forall i :: 0 <= i < |entries| ==> files[i] == entries[i].file
  {
    seq(|entries|, i requires 0 <= i < |entries| => entries[i].file)
  }

  /** The real files of a v1 file list, in order. */
  function RealFiles(entries: seq<V1Entry>): (files: seq<CreateFile>) {
    if entries == [] then []
    else
      var last := entries[|entries| - 1];
      RealFiles(entries[..|entries| - 1]) + if last.padding then [] else [last.file]
  }

  /** All the v2 pieces: each file is cut into pieces on its own. */
  function FilePieces(files: seq<CreateFile>, pieceLength: nat): (pieces: seq<seq<byte>>)
    requires pieceLength > 0 && AllReadable(files)
  {
    if files == [] then []
    else FilePieces(files[..|files| - 1], pieceLength) + Chunks(files[|files| - 1].Content(), pieceLength)
  }

  /** b is a followed by zeros. */
  predicate ZeroExtends(a: seq<byte>, b: seq<byte>) {
    a <= b && b[|a|..] == Zeros(|b| - |a|)
  }

  /** Every real, non-empty file starts on a piece boundary of the v1 stream. */
  ghost predicate Aligned(entries: seq<V1Entry>, pieceLength: nat)
    requires pieceLength > 0 && AllReadable(Files(entries))
  {
    forall j :: 0 <= j < |entries| && !entries[j].padding && entries[j].file.length > 0 ==>
      |StreamOf(Files(entries)[..j])| % pieceLength == 0
  }

  /** What the file tree says of a file. */
  datatype TreeEntry = TreeEntry(length: nat, root: Hash)

  function EntryOf(h: Sha256, f: CreateFile, pieceLength: nat, bpp: nat): (e: TreeEntry)
    requires f.Readable() && pieceLength > 0 && IsPow2(bpp)
  {
    TreeEntry(f.length, if f.length == 0 then ZERO_HASH
                        else FileRootOf(h, FileRootsOf(h, f.Content(), pieceLength, bpp), bpp))
  }

  function PathOf(f: CreateFile, name: string, single: bool): (p: Path) {
    if single then [name] else f.path
  }

  /** Every file has a place in the torrent. */
  predicate Placed(files: seq<CreateFile>, single: bool) {
    single || forall i :: 0 <= i < |files| ==> files[i].path != []
  }

  /** The file tree, the files put in one after the other. */
  function TreeOf(h: Sha256, files: seq<CreateFile>, name: string, single: bool, pieceLength: nat, bpp: nat): (t: seq<Bencode.Entry>)
    requires AllReadable(files) && pieceLength > 0 && IsPow2(bpp) && Placed(files, single)
  {
    if files == [] then []
    else
      var f := files[|files| - 1];
      var e := EntryOf(h, f, pieceLength, bpp);
      FileTree.Put(TreeOf(h, files[..|files| - 1], name, single, pieceLength, bpp), PathOf(f, name, single), FileTree.LeafNode(e.length, e.root))
  }

  /** The top-level piece layers: one entry per file of more than one piece, keyed by its root. */
  function LayersOf(h: Sha256, files: seq<CreateFile>, pieceLength: nat, bpp: nat): (layers: map<Hash, seq<byte>>)
    requires AllReadable(files) && pieceLength > 0 && IsPow2(bpp)
  {
    if files == [] then map[]
    else
      var f := files[|files| - 1];
      var before := LayersOf(h, files[..|files| - 1], pieceLength, bpp);
      if f.length == 0 then before
      else
        var roots := FileRootsOf(h, f.Content(), pieceLength, bpp);
        if |roots| > 1 then before[FileRootOf(h, roots, bpp) := BytesOf(roots)] else before
  }

  datatype Built = Built(tree: seq<Bencode.Entry>, pieceLayers: map<Hash, seq<byte>>, single: bool,
                         v1Pieces: seq<byte>, v1Files: seq<V1Entry>, v1SingleLength: nat)

  datatype BuildError = NotPow2 | NegativeLength | NoPath | ShortFile

  /** The v1 side of a hybrid torrent as a list of entries; a single-file torrent is its one file. */
  function V1List(files: seq<CreateFile>, b: Built): (entries: seq<V1Entry>) {
    if b.single then seq(|files|, i requires 0 <= i < |files| => V1Entry(files[i], false)) else b.v1Files
  }

  /** The padding entries are as long as what was left of a piece. */
  ghost predicate PadsFit(entries: seq<V1Entry>, pieceLength: nat) {
    forall j :: 0 <= j < |entries| && entries[j].padding ==> 0 < entries[j].file.length < pieceLength && entries[j] == PadEntry(entries[j].file.length)
  }

  /** What a hybrid torrent's v1 description is, for the files it was built from. */
  ghost predicate HybridOf(s1: Sha1, files: seq<CreateFile>, entries: seq<V1Entry>, v1Pieces: seq<byte>, pieceLength: nat)
    requires pieceLength > 0 && AllReadable(files)
  {
    && AllReadable(Files(entries)) && RealFiles(entries) == files && Aligned(entries, pieceLength) && PadsFit(entries, pieceLength)
    && v1Pieces == V1PiecesOf(s1, StreamOf(Files(entries)), pieceLength)
    && var chunks := Chunks(StreamOf(Files(entries)), pieceLength);
       var pieces := FilePieces(files, pieceLength);
       |chunks| == |pieces| && forall i :: 0 <= i < |pieces| ==> ZeroExtends(pieces[i], chunks[i])
  }

  // ---------- the v1 side of the loop ----------

  /**
   * The v1 stream so far is the pieces in `closed`, each a file's piece with its padding, followed by
   * `tail`, the end of a file that stopped mid-piece: still pending, or hashed as it stands.
   */
  ghost predicate V1At(s1: Sha1, size: nat, pieces: seq<seq<byte>>, v1Pieces: seq<byte>, stream: seq<byte>, pending: Pending,
                       closed: seq<seq<byte>>, tail: seq<byte>)
  {
    && Uniform(closed, size) && |tail| < size
    && stream == Flatten(closed) + tail
    && |pieces| == |closed| + (if tail == [] then 0 else 1)
    && (forall i :: 0 <= i < |closed| ==> ZeroExtends(pieces[i], closed[i]))
    && (tail != [] ==> pieces[|closed|] == tail)
    && match pending
       case NoPending => v1Pieces == Sha1s(s1, Closed(closed, tail))
       case Pending(fed, residue) =>
         tail != [] && fed == tail && residue == size - |tail| && v1Pieces == Sha1s(s1, closed)
  }

  lemma {:induction false} Sha1sSnoc(s1: Sha1, ps: seq<seq<byte>>, p: seq<byte>)
    ensures Sha1s(s1, ps + [p]) == Sha1s(s1, ps) + s1(p).bytes
  {
    Sha1sAppend(s1, ps, [p]);
    assert Sha1s(s1, [p]) == s1(p).bytes + [];
  }

  /** A padding file of exactly the residue closes the pending piece. */
  lemma {:induction false} PaddingCloses(s1: Sha1, size: nat, pieces: seq<seq<byte>>, v1Pieces: seq<byte>, stream: seq<byte>, pending: Pending,
                      closed: seq<seq<byte>>, tail: seq<byte>)
    requires V1At(s1, size, pieces, v1Pieces, stream, pending, closed, tail) && pending.Pending?
    ensures 0 < pending.residue < size
    ensures var piece := pending.fed + Zeros(pending.residue);
            V1At(s1, size, pieces, v1Pieces + s1(piece).bytes, stream + Zeros(pending.residue), NoPending, closed + [piece], [])
  {
    var piece := pending.fed + Zeros(pending.residue);
    FlattenSnoc(closed, piece);
    Sha1sSnoc(s1, closed, piece);
    assert Flatten(closed) + tail + Zeros(pending.residue) == Flatten(closed) + piece;
    assert Closed(closed + [piece], []) == closed + [piece];
    assert piece[|tail|..] == Zeros(pending.residue);
  }

  lemma {:induction false} PiecesCons(x: seq<byte>, rs: seq<seq<byte>>, size: nat)
    requires rs != []
    ensures FullPieces([x] + rs, size) == [x] + FullPieces(rs, size) && Tail([x] + rs, size) == Tail(rs, size)
    ensures Flatten(FullPieces([x] + rs, size)) == x + Flatten(FullPieces(rs, size))
  {
    var cs := [x] + rs;
    assert cs[|cs| - 1] == rs[|rs| - 1];
    assert ([x] + FullPieces(rs, size))[1..] == FullPieces(rs, size);
  }

  lemma {:induction false} ChunksFlatten(s: seq<byte>, size: nat)
    requires size > 0
    ensures var cs := Chunks(s, size);
            && Uniform(FullPieces(cs, size), size) && |Tail(cs, size)| < size
            && cs == Closed(FullPieces(cs, size), Tail(cs, size))
            && s == Flatten(FullPieces(cs, size)) + Tail(cs, size)
    decreases |s|
  {
    if |s| > size {
      var first, rest := s[..size], s[size..];
      ChunksFlatten(rest, size);
      PiecesCons(first, Chunks(rest, size), size);
      hide FullPieces, Tail, Flatten;
      assert Chunks(s, size) == [first] + Chunks(rest, size);
      assert s == first + rest;
    } else if |s| > 0 {
      assert Chunks(s, size) == [s];
      assert Flatten([s]) == s + Flatten<byte>([]);
    }
  }

  lemma {:induction false} ExtendsItself(cs: seq<seq<byte>>)
    ensures forall i :: 0 <= i < |cs| ==> ZeroExtends(cs[i], cs[i])
  {
  }

  /** A file is hashed: its full pieces close, and its short last one is left pending or finalized. */
  lemma {:induction false} FileHashed(s1: Sha1, size: nat, pieces: seq<seq<byte>>, v1Pieces: seq<byte>, stream: seq<byte>,
                   closed: seq<seq<byte>>, content: seq<byte>)
    requires size > 0 && V1At(s1, size, pieces, v1Pieces, stream, NoPending, closed, [])
    ensures var cs := Chunks(content, size);
            var full, tail := FullPieces(cs, size), Tail(cs, size);
            && V1At(s1, size, pieces + cs, v1Pieces + Sha1s(s1, full), stream + content, PendingOf(cs, size), closed + full, tail)
            && (tail != [] ==>
                 V1At(s1, size, pieces + cs, v1Pieces + Sha1s(s1, full) + s1(tail).bytes, stream + content, NoPending, closed + full, tail))
  {
    hide Sha1s, Flatten, Chunks, FullPieces, Tail, ZeroExtends;
    var cs := Chunks(content, size);
    var full, tail := FullPieces(cs, size), Tail(cs, size);
    ChunksFlatten(content, size);
    ExtendsItself(cs);
    FlattenAppend(closed, full);
    Sha1sAppend(s1, closed, full);
    Sha1sSnoc(s1, closed + full, tail);
    assert Closed(closed, []) == closed && Closed(closed + full, []) == closed + full;
    assert Flatten(closed) + [] + content == Flatten(closed) + Flatten(full) + tail;
    forall i | 0 <= i < |closed + full| ensures ZeroExtends((pieces + cs)[i], (closed + full)[i]) {
      if i >= |closed| {
        assert (pieces + cs)[i] == cs[i - |closed|] == full[i - |closed|] == (closed + full)[i];
      }
    }
  }

  /** When nothing is pending the v1 pieces are those of the stream. */
  lemma {:induction false} V1Done(s1: Sha1, size: nat, pieces: seq<seq<byte>>, v1Pieces: seq<byte>, stream: seq<byte>, closed: seq<seq<byte>>, tail: seq<byte>)
    requires size > 0 && V1At(s1, size, pieces, v1Pieces, stream, NoPending, closed, tail)
    ensures v1Pieces == V1PiecesOf(s1, stream, size)
    ensures var chunks := Chunks(stream, size);
            |chunks| == |pieces| && forall i :: 0 <= i < |pieces| ==> ZeroExtends(pieces[i], chunks[i])
  {
    ChunksOfFull(closed, tail, size);
  }

  lemma {:induction false} EntriesSnoc(entries: seq<V1Entry>, e: V1Entry, size: nat)
    requires size > 0 && AllReadable(Files(entries)) && e.file.Readable() && Aligned(entries, size)
    requires !e.padding && e.file.length > 0 ==> |StreamOf(Files(entries))| % size == 0
    ensures AllReadable(Files(entries + [e])) && Aligned(entries + [e], size)
    ensures StreamOf(Files(entries + [e])) == StreamOf(Files(entries)) + e.file.Content()
    ensures RealFiles(entries + [e]) == RealFiles(entries) + if e.padding then [] else [e.file]
  {
    hide Aligned, RealFiles, StreamOf;
    FilesSnoc(entries, e);
    StreamSnoc(Files(entries), e.file);
    RealSnoc(entries, e);
    AlignedSnoc(entries, e, size);
  }

  lemma {:induction false} FilesSnoc(entries: seq<V1Entry>, e: V1Entry)
    ensures Files(entries + [e]) == Files(entries) + [e.file]
  {
  }

  lemma {:induction false} RealSnoc(entries: seq<V1Entry>, e: V1Entry)
    ensures RealFiles(entries + [e]) == RealFiles(entries) + if e.padding then [] else [e.file]
  {
    assert (entries + [e])[..|entries|] == entries;
  }

  lemma {:induction false} AlignedSnoc(entries: seq<V1Entry>, e: V1Entry, size: nat)
    requires size > 0 && AllReadable(Files(entries)) && AllReadable(Files(entries + [e])) && Aligned(entries, size)
    requires !e.padding && e.file.length > 0 ==> |StreamOf(Files(entries))| % size == 0
    ensures Aligned(entries + [e], size)
  {
    hide StreamOf;
    FilesSnoc(entries, e);
    var all := Files(entries + [e]);
    assert all[..|entries|] == Files(entries);
    forall j | 0 <= j < |entries| ensures all[..j] == Files(entries)[..j] {
    }
  }

  lemma {:induction false} FullStreamAligned(closed: seq<seq<byte>>, size: nat)
    requires size > 0 && Uniform(closed, size)
    ensures |Flatten(closed)| % size == 0
  {
    FlattenLength(closed, size);
    DivModUnique(|Flatten(closed)|, size, |closed|, 0);
  }

  // ---------- the loop ----------

  const MIN_PIECE_LENGTH := 16384
  const MAX_PIECE_LENGTH := 67108864

  /** Why the loop refuses a file. */
  function Fault(f: CreateFile, single: bool): (e: Option<BuildError>) {
    if f.length < 0 then Some(NegativeLength)
    else if !single && f.path == [] then Some(NoPath)
    else if f.length > |f.src| then Some(ShortFile)
    else None
  }

  function FirstFault(files: seq<CreateFile>, single: bool): (e: Option<BuildError>) {
    if files == [] then None
    else if Fault(files[0], single).Some? then Fault(files[0], single)
    else FirstFault(files[1..], single)
  }

  function IsSingle(files: seq<CreateFile>): (single: bool) {
    |files| == 1 && files[0].path == []
  }

  /** The loop's v1 state is right for the first files: entries, hashes, and what is pending. */
  ghost predicate V1Ready(s1: Sha1, size: nat, files: seq<CreateFile>, entries: seq<V1Entry>, v1Pieces: seq<byte>, pending: Pending,
                          closed: seq<seq<byte>>, tail: seq<byte>)
    requires size > 0 && AllReadable(files)
  {
    && AllReadable(Files(entries)) && Aligned(entries, size) && RealFiles(entries) == files && PadsFit(entries, size)
    && V1At(s1, size, FilePieces(files, size), v1Pieces, StreamOf(Files(entries)), pending, closed, tail)
  }

  lemma {:induction false} V1Start(s1: Sha1, size: nat)
    requires size > 0
    ensures V1Ready(s1, size, [], [], [], NoPending, [], [])
  {
  }

  lemma {:induction false} PadStep(s1: Sha1, size: nat, files: seq<CreateFile>, entries: seq<V1Entry>, v1Pieces: seq<byte>, pending: Pending,
                closed: seq<seq<byte>>, tail: seq<byte>)
    requires size > 0 && AllReadable(files)
    requires V1Ready(s1, size, files, entries, v1Pieces, pending, closed, tail) && pending.Pending?
    ensures 0 < pending.residue < size
    ensures V1Ready(s1, size, files, entries + [PadEntry(pending.residue)],
                    v1Pieces + s1(pending.fed + Zeros(pending.residue)).bytes, NoPending,
                    closed + [pending.fed + Zeros(pending.residue)], [])
  {
    PaddingCloses(s1, size, FilePieces(files, size), v1Pieces, StreamOf(Files(entries)), pending, closed, tail);
    EntriesSnoc(entries, PadEntry(pending.residue), size);
  }

  lemma {:induction false} FileStep(s1: Sha1, size: nat, files: seq<CreateFile>, f: CreateFile, entries: seq<V1Entry>, v1Pieces: seq<byte>,
                 closed: seq<seq<byte>>)
    requires size > 0 && AllReadable(files) && f.Readable() && AllReadable(files + [f])
    requires V1Ready(s1, size, files, entries, v1Pieces, NoPending, closed, [])
    ensures var cs := Chunks(f.Content(), size);
            var full, tail := FullPieces(cs, size), Tail(cs, size);
            && V1Ready(s1, size, files + [f], entries + [V1Entry(f, false)], v1Pieces + Sha1s(s1, full), PendingOf(cs, size),
                       closed + full, tail)
            && (tail != [] ==>
                 V1Ready(s1, size, files + [f], entries + [V1Entry(f, false)], v1Pieces + Sha1s(s1, full) + s1(tail).bytes, NoPending,
                         closed + full, tail))
  {
    hide V1At, Chunks, FullPieces, Tail, Aligned, RealFiles;
    assert |StreamOf(Files(entries))| % size == 0 by {
      V1StreamFull(s1, size, FilePieces(files, size), v1Pieces, StreamOf(Files(entries)), closed);
    }
    assert (files + [f])[..|files|] == files;
    FileHashed(s1, size, FilePieces(files, size), v1Pieces, StreamOf(Files(entries)), closed, f.Content());
    EntriesSnoc(entries, V1Entry(f, false), size);
  }

  lemma {:induction false} V1StreamFull(s1: Sha1, size: nat, pieces: seq<seq<byte>>, v1Pieces: seq<byte>, stream: seq<byte>, closed: seq<seq<byte>>)
    requires size > 0 && V1At(s1, size, pieces, v1Pieces, stream, NoPending, closed, [])
    ensures |stream| % size == 0
  {
    FullStreamAligned(closed, size);
    assert stream == Flatten(closed);
  }

  /** An empty file takes no pieces: hashing it changes nothing. */
  lemma {:induction false} EmptyFileStep(s1: Sha1, size: nat, files: seq<CreateFile>, f: CreateFile, entries: seq<V1Entry>, v1Pieces: seq<byte>,
                      closed: seq<seq<byte>>)
    requires size > 0 && AllReadable(files) && f.Readable() && f.length == 0
    requires V1Ready(s1, size, files, entries, v1Pieces, NoPending, closed, [])
    ensures V1Ready(s1, size, files + [f], entries + [V1Entry(f, false)], v1Pieces, NoPending, closed, [])
  {
    hide V1Ready;
    FileStep(s1, size, files, f, entries, v1Pieces, closed);
    assert f.Content() == [];
    assert v1Pieces + Sha1s(s1, []) == v1Pieces && closed + [] == closed;
  }

  lemma {:induction false} TreeSnoc(h: Sha256, files: seq<CreateFile>, f: CreateFile, name: string, single: bool, size: nat, bpp: nat)
    requires AllReadable(files) && f.Readable() && AllReadable(files + [f]) && size > 0 && IsPow2(bpp)
    requires Placed(files, single) && (single || f.path != [])
    ensures Placed(files + [f], single)
    ensures TreeOf(h, files + [f], name, single, size, bpp)
         == FileTree.Put(TreeOf(h, files, name, single, size, bpp), PathOf(f, name, single),
                         FileTree.LeafNode(EntryOf(h, f, size, bpp).length, EntryOf(h, f, size, bpp).root))
    ensures f.length == 0 ==> LayersOf(h, files + [f], size, bpp) == LayersOf(h, files, size, bpp)
    ensures f.length > 0 ==>
              var roots := FileRootsOf(h, f.Content(), size, bpp);
              LayersOf(h, files + [f], size, bpp)
                == if |roots| > 1 then LayersOf(h, files, size, bpp)[FileRootOf(h, roots, bpp) := BytesOf(roots)]
                   else LayersOf(h, files, size, bpp)
  {
    assert (files + [f])[..|files|] == files;
  }

  /** The file's own v1 hashes are appended; a piece it leaves open stays pending if files follow. */
  method AppendHashes(s1: Sha1, size: nat, ghost before: seq<CreateFile>, ghost f: CreateFile, ghost entries: seq<V1Entry>,
                      v1Pieces0: seq<byte>, filePieces: seq<byte>, filePending: Pending, filesFollow: bool, ghost closed: seq<seq<byte>>)
    returns (v1Pieces: seq<byte>, pending: Pending)
    requires size > 0 && AllReadable(before) && f.Readable()
    requires V1Ready(s1, size, before, entries, v1Pieces0, NoPending, closed, [])
    requires filePieces == Sha1s(s1, FullPieces(Chunks(f.Content(), size), size))
    requires filePending == PendingOf(Chunks(f.Content(), size), size)
    ensures var cs := Chunks(f.Content(), size);
            && V1Ready(s1, size, before + [f], entries + [V1Entry(f, false)], v1Pieces, pending,
                       closed + FullPieces(cs, size), Tail(cs, size))
            && (filesFollow && pending.NoPending? ==> Tail(cs, size) == [])
    ensures !filesFollow ==> pending.NoPending?
  {
    hide V1Ready, Chunks, FullPieces, Tail, Sha1s;
    FileStep(s1, size, before, f, entries, v1Pieces0, closed);
    v1Pieces, pending := v1Pieces0 + filePieces, NoPending;
    if filePending.Pending? {
      if filesFollow {
        pending := filePending;
      } else {
        v1Pieces := v1Pieces + s1(filePending.fed).bytes;
      }
    }
  }

  /** The variables of buildV2's loop. */
  datatype Progress = Progress(fileTree: seq<Bencode.Entry>, pieceLayers: map<Hash, seq<byte>>, v1Pieces: seq<byte>,
                               v1Files: seq<V1Entry>, v1SingleLength: nat, pending: Pending)

  /** They are right for the files seen so far, and more files follow or not. */
  ghost predicate Right(h: Sha256, s1: Sha1, files: seq<CreateFile>, name: string, single: bool, hybrid: bool, size: nat,
                        p: Progress, entries: seq<V1Entry>, closed: seq<seq<byte>>, tail: seq<byte>, filesFollow: bool)
    requires size > 0 && IsPow2(size / BLOCK_SIZE)
  {
    && AllReadable(files) && Placed(files, single)
    && p.fileTree == TreeOf(h, files, name, single, size, size / BLOCK_SIZE)
    && p.pieceLayers == LayersOf(h, files, size, size / BLOCK_SIZE)
    && (hybrid ==>
         && V1Ready(s1, size, files, entries, p.v1Pieces, p.pending, closed, tail)
         && (filesFollow && p.pending.NoPending? ==> tail == [])
         && (!filesFollow ==> p.pending.NoPending?)
         && (if single then |files| <= 1 && p.v1Files == [] && entries == V1List(files, Built([], map[], true, [], [], 0))
             else entries == p.v1Files)
         && (single ==> p.v1SingleLength == if files == [] then 0 else files[0].length))
    && (!hybrid ==> p.v1Pieces == [] && p.v1Files == [] && p.pending == NoPending)
  }

  /** Resolving what the previous file left open: the BEP 47 padding file. */
  method ResolvePending(s1: Sha1, size: nat, p: Progress, ghost files: seq<CreateFile>, ghost entries0: seq<V1Entry>,
                        ghost closed0: seq<seq<byte>>, ghost tail0: seq<byte>)
    returns (q: Progress, ghost closed: seq<seq<byte>>)
    requires size > 0 && AllReadable(files) && V1Ready(s1, size, files, p.v1Files, p.v1Pieces, p.pending, closed0, tail0)
    requires p.pending.NoPending? ==> tail0 == []
    ensures V1Ready(s1, size, files, q.v1Files, q.v1Pieces, q.pending, closed, [])
    ensures q == p.(v1Pieces := q.v1Pieces, v1Files := q.v1Files, pending := NoPending)
  {
    hide V1Ready, PadEntry;
    q, closed := p, closed0;
    if p.pending.Pending? {
      PadStep(s1, size, files, p.v1Files, p.v1Pieces, p.pending, closed0, tail0);
      var padLen := p.pending.residue;
      var fed := p.pending.fed + Zeros(padLen);
      closed := closed + [fed];
      q := p.(v1Pieces := p.v1Pieces + s1(fed).bytes, v1Files := p.v1Files + [PadEntry(padLen)], pending := NoPending);
    }
  }

  /** The loop's body for one file that passes the checks. */
  method AddFile(h: Sha256, s1: Sha1, ghost files: seq<CreateFile>, f: CreateFile, name: string, single: bool, hybrid: bool,
                 size: nat, filesFollow: bool, p0: Progress, ghost entries0: seq<V1Entry>, ghost closed0: seq<seq<byte>>,
                 ghost tail0: seq<byte>)
    returns (ok: bool, p: Progress, ghost entries: seq<V1Entry>, ghost closed: seq<seq<byte>>, ghost tail: seq<byte>)
    requires size > 0 && IsPow2(size / BLOCK_SIZE) && size == BLOCK_SIZE * (size / BLOCK_SIZE)
    requires Right(h, s1, files, name, single, hybrid, size, p0, entries0, closed0, tail0, true)
    requires f.length >= 0 && (single || f.path != []) && (single ==> files == [] && p0.pending.NoPending? && !filesFollow)
    ensures ok <==> f.Readable()
    ensures ok ==> Right(h, s1, files + [f], name, single, hybrid, size, p, entries, closed, tail, filesFollow)
  {
    hide V1Ready, Chunks, FullPieces, Tail, PendingOf, IsPow2, TreeOf, LayersOf, Sha1s, FileRootOf, FileRootsOf, BytesOf;
    var bpp := size / BLOCK_SIZE;
    var path := if single then [name] else f.path;
    p, entries, closed, tail := p0, entries0, closed0, tail0;
    if hybrid && !single {
      p, closed := ResolvePending(s1, size, p, files, entries, closed, tail);
      entries, tail := p.v1Files, [];
    }
    if f.length == 0 {
      TreeSnoc(h, files, f, name, single, size, bpp);
      p := p.(fileTree := FileTree.Put(p.fileTree, path, FileTree.LeafNode(0, ZERO_HASH)));
      if hybrid {
        EmptyFileStep(s1, size, files, f, entries, p.v1Pieces, closed);
        entries := entries + [V1Entry(f, false)];
        if !single {
          p := p.(v1Files := p.v1Files + [V1Entry(f, false)]);
        }
      }
      return true, p, entries, closed, tail;
    }
    var hashed := HashOneFileV2(h, s1, f.src, f.length, size, bpp, hybrid);
    if hashed.None? {
      return false, p, entries, closed, tail;
    }
    var fh := hashed.value;
    TreeSnoc(h, files, f, name, single, size, bpp);
    p := p.(fileTree := FileTree.Put(p.fileTree, path, FileTree.LeafNode(f.length, fh.root)),
            pieceLayers := if fh.numPieces > 1 then p.pieceLayers[fh.root := fh.layerBytes] else p.pieceLayers);
    if hybrid {
      var v1Pieces, pending := AppendHashes(s1, size, files, f, entries, p.v1Pieces, fh.v1Pieces, fh.pending,
                                            !single && filesFollow, closed);
      closed := closed + FullPieces(Chunks(f.Content(), size), size);
      tail := Tail(Chunks(f.Content(), size), size);
      entries := entries + [V1Entry(f, false)];
      p := p.(v1Pieces := v1Pieces, pending := pending);
      if single {
        p := p.(v1SingleLength := f.length);
      } else {
        p := p.(v1Files := p.v1Files + [V1Entry(f, false)]);
      }
    }
    ok := true;
  }

  /**
   * buildV2's loop over the files. For every file list it either reports the first bad file, or has
   * built exactly the file tree and piece layers of the files and, for a hybrid torrent, a v1
   * description whose pieces are those of its own padded byte stream.
   */
  method BuildV2(h: Sha256, s1: Sha1, files: seq<CreateFile>, name: string, hybrid: bool, pieceLength: nat)
    returns (r: Result<Built, BuildError>)
    requires MIN_PIECE_LENGTH <= pieceLength <= MAX_PIECE_LENGTH
    ensures r.Err? && r.error == NotPow2 <==> !IsPow2(pieceLength)
    ensures IsPow2(pieceLength) && r.Err? ==> FirstFault(files, IsSingle(files)) == Some(r.error)
    ensures r.Ok? ==> FirstFault(files, IsSingle(files)) == None && AllReadable(files) && IsPow2(pieceLength / BLOCK_SIZE)
    ensures r.Ok? ==> var b, bpp := r.value, pieceLength / BLOCK_SIZE;
                      && b.single == IsSingle(files)
                      && Placed(files, b.single)
                      && b.tree == TreeOf(h, files, name, b.single, pieceLength, bpp)
                      && b.pieceLayers == LayersOf(h, files, pieceLength, bpp)
    ensures r.Ok? && hybrid ==> HybridOf(s1, files, V1List(files, r.value), r.value.v1Pieces, pieceLength)
    ensures r.Ok? && hybrid && r.value.single ==> r.value.v1Files == [] && r.value.v1SingleLength == files[0].length
    ensures r.Ok? && !hybrid ==> r.value.v1Pieces == [] && r.value.v1Files == []
  {
    hide V1Ready, IsPow2, TreeOf, LayersOf, HybridOf;
    BitTrickIsPow2(pieceLength);
    if BitAnd(pieceLength, pieceLength - 1) != 0 {
      return Err(NotPow2);
    }
    PieceLengthInBlocks(pieceLength);
    var single := |files| == 1 && |files[0].path| == 0;
    var p := Progress([], map[], [], [], 0, NoPending);
    ghost var closed: seq<seq<byte>>, tail: seq<byte>, entries: seq<V1Entry> := [], [], [];
    V1Start(s1, pieceLength);
    BuildStart(h, name, single, pieceLength, pieceLength / BLOCK_SIZE);

    for i := 0 to |files|
      invariant FirstFault(files[i..], single) == FirstFault(files, single)
      invariant Right(h, s1, files[..i], name, single, hybrid, pieceLength, p, entries, closed, tail, i < |files|)
      invariant i == 0 ==> p.pending.NoPending?
    {
      var f := files[i];
      assert files[i..][0] == f && files[i..][1..] == files[i + 1..];
      assert files[..i + 1] == files[..i] + [f];
      if f.length < 0 {
        return Err(NegativeLength);
      }
      if !single && |f.path| == 0 {
        return Err(NoPath);
      }
      var ok;
      ok, p, entries, closed, tail := AddFile(h, s1, files[..i], f, name, single, hybrid, pieceLength, i < |files| - 1,
                                              p, entries, closed, tail);
      if !ok {
        return Err(ShortFile);
      }
    }

    assert files[..|files|] == files && files[|files|..] == [];
    if hybrid {
      V1Finish(s1, pieceLength, files, entries, p.v1Pieces, closed, tail);
    }
    var b := Built(p.fileTree, p.pieceLayers, single, p.v1Pieces, p.v1Files, p.v1SingleLength);
    assert hybrid ==> V1List(files, b) == entries;
    r := Ok(b);
  }

  lemma {:induction false} BuildStart(h: Sha256, name: string, single: bool, size: nat, bpp: nat)
    requires size > 0 && IsPow2(bpp)
    ensures TreeOf(h, [], name, single, size, bpp) == [] && LayersOf(h, [], size, bpp) == map[]
  {
  }

  lemma {:induction false} V1Finish(s1: Sha1, size: nat, files: seq<CreateFile>, entries: seq<V1Entry>, v1Pieces: seq<byte>,
                 closed: seq<seq<byte>>, tail: seq<byte>)
    requires size > 0 && AllReadable(files) && V1Ready(s1, size, files, entries, v1Pieces, NoPending, closed, tail)
    ensures HybridOf(s1, files, entries, v1Pieces, size)
  {
    V1Done(s1, size, FilePieces(files, size), v1Pieces, StreamOf(Files(entries)), closed, tail);
  }

  lemma {:induction false} PieceLengthInBlocks(pieceLength: nat)
    requires IsPow2(pieceLength) && pieceLength >= BLOCK_SIZE
    ensures pieceLength == BLOCK_SIZE * (pieceLength / BLOCK_SIZE) && IsPow2(pieceLength / BLOCK_SIZE)
  {
    BlockSizeIsPow2();
    Pow2Div(BLOCK_SIZE, pieceLength);
  }

  lemma {:induction false} BlockSizeIsPow2()
    ensures IsPow2(BLOCK_SIZE)
  {
    assert IsPow2(2) && IsPow2(4) && IsPow2(8) && IsPow2(16) && IsPow2(32) && IsPow2(64) && IsPow2(128);
    assert IsPow2(256) && IsPow2(512) && IsPow2(1024) && IsPow2(2048) && IsPow2(4096) && IsPow2(8192);
  }
}
