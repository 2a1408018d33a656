/** Many files as one flat byte space: internal/storage/storage.go. */
module FlatStorage {
  import opened Bytes
  import Geometry

  /** One file's place in the torrent's byte space. */
  datatype FileRegion = FileRegion(path: string, offset: int, length: nat)

  function End(r: FileRegion): (end: int) {
    r.offset + r.length
  }

  /** What is on disk: the bytes of each file that exists. */
  type Disk = map<string, seq<byte>>

  /** The regions lie end to end from 0 to total. */
  ghost predicate Laid(files: seq<FileRegion>, total: int) {
    && (files != [] ==> files[0].offset == 0)
    && (forall i :: 0 <= i < |files| - 1 ==> files[i + 1].offset == End(files[i]))
    && total == if files == [] then 0 else End(files[|files| - 1])
  }

  /** Files that exist are as long as their regions: they have been allocated. */
  ghost predicate SizesHold(files: seq<FileRegion>, disk: Disk) {
    forall i :: 0 <= i < |files| && files[i].length > 0 && files[i].path in disk ==> |disk[files[i].path]| >= files[i].length
  }

  lemma {:induction false} EndsRise(files: seq<FileRegion>, total: int, i: int, j: int)
    requires Laid(files, total) && 0 <= i <= j < |files|
    ensures 0 <= files[i].offset <= End(files[i]) && End(files[i]) <= End(files[j]) <= total
    ensures i < j ==> End(files[i]) <= files[j].offset
  {
    if i > 0 {
      StartsUp(files, total, i);
    }
    ChainUp(files, total, i, j);
    ChainUp(files, total, j, |files| - 1);
  }

  lemma {:induction false} StartsUp(files: seq<FileRegion>, total: int, i: int)
    requires Laid(files, total) && 0 <= i < |files|
    ensures files[i].offset >= 0
  {
    if i > 0 {
      StartsUp(files, total, i - 1);
    }
  }

  lemma {:induction false} ChainUp(files: seq<FileRegion>, total: int, i: int, j: int)
    requires Laid(files, total) && 0 <= i <= j < |files|
    ensures End(files[i]) <= End(files[j]) && (i < j ==> End(files[i]) <= files[j].offset)
    decreases j - i
  {
    if i < j {
      ChainUp(files, total, i, j - 1);
    }
  }

  /** The region that holds x. */
  ghost predicate Holds(files: seq<FileRegion>, i: int, x: int) {
    0 <= i < |files| && files[i].offset <= x < End(files[i])
  }

  /** Every offset in the torrent lies in exactly one region. */
  lemma {:induction false} SomeRegion(files: seq<FileRegion>, total: int, x: int) returns (i: int)
    requires Laid(files, total) && 0 <= x < total
    ensures Holds(files, i, x)
  {
    i := 0;
    while End(files[i]) <= x
      invariant 0 <= i < |files| && files[i].offset <= x
      decreases |files| - i
    {
      i := i + 1;
    }
  }

  lemma {:induction false} OneRegion(files: seq<FileRegion>, total: int, i: int, j: int, x: int)
    requires Laid(files, total) && Holds(files, i, x) && Holds(files, j, x)
    ensures i == j
  {
    if i < j {
      ChainUp(files, total, i, j);
    } else if j < i {
      ChainUp(files, total, j, i);
    }
  }

  function RegionOf(files: seq<FileRegion>, x: int, k: nat): (i: int)
    requires k <= |files|
    decreases |files| - k
  {
    if k == |files| then -1 else if files[k].offset <= x < End(files[k]) then k else RegionOf(files, x, k + 1)
  }

  lemma {:induction false} RegionOfHolds(files: seq<FileRegion>, total: int, x: int)
    requires Laid(files, total)
    ensures 0 <= x < total ==> Holds(files, RegionOf(files, x, 0), x)
    ensures forall i :: Holds(files, i, x) ==> i == RegionOf(files, x, 0) && 0 <= x < total
  {
    RegionOfFinds(files, x, 0);
    if 0 <= x < total {
      var i := SomeRegion(files, total, x);
      assert Holds(files, i, x);
    }
    forall i | Holds(files, i, x) ensures i == RegionOf(files, x, 0) && 0 <= x < total {
      EndsRise(files, total, i, i);
      OneRegion(files, total, i, RegionOf(files, x, 0), x);
    }
  }

  lemma {:induction false} RegionOfFinds(files: seq<FileRegion>, x: int, k: nat)
    requires k <= |files|
    ensures (exists i :: i >= k && Holds(files, i, x)) ==> Holds(files, RegionOf(files, x, k), x)
    ensures RegionOf(files, x, k) == -1 || Holds(files, RegionOf(files, x, k), x)
    decreases |files| - k
  {
    if k < |files| {
      RegionOfFinds(files, x, k + 1);
    }
  }

  /** The byte at flat offset x, if the file that holds it exists. */
  function ByteAt(files: seq<FileRegion>, disk: Disk, x: int): (b: Option<byte>) {
    var i := RegionOf(files, x, 0);
    if 0 <= i < |files| && files[i].path in disk && 0 <= x - files[i].offset < |disk[files[i].path]|
    then Some(disk[files[i].path][x - files[i].offset]) else None
  }

  /** The file that holds flat offset x exists. */
  predicate FileThere(files: seq<FileRegion>, disk: Disk, x: int) {
    var i := RegionOf(files, x, 0);
    0 <= i < |files| && files[i].path in disk
  }

  /** Each file is a stretch of the flat space, byte for byte, from its offset on. */
  lemma {:induction false} FilesAreStretches(files: seq<FileRegion>, total: int, disk: Disk, i: int, k: nat)
    requires Laid(files, total) && 0 <= i < |files| && k < files[i].length
    ensures FileThere(files, disk, files[i].offset + k) <==> files[i].path in disk
    ensures ByteAt(files, disk, files[i].offset + k)
         == if files[i].path in disk && k < |disk[files[i].path]| then Some(disk[files[i].path][k]) else None
  {
    hide Laid, RegionOf;
    assert Holds(files, i, files[i].offset + k);
    RegionOfHolds(files, total, files[i].offset + k);
  }

  /** A file after a write: bytes replaced, bytes appended, and zeros in between if it was shorter. */
  function Written(f: seq<byte>, at: nat, data: seq<byte>): (f': seq<byte>) {
    if data == [] then f
    else if at <= |f| then f[..at] + data + (if at + |data| <= |f| then f[at + |data|..] else [])
    else f + Zeros(at - |f|) + data
  }

  /** Storing one byte at flat offset x. */
  function Put(files: seq<FileRegion>, disk: Disk, x: int, b: byte): (disk': Disk) {
    var i := RegionOf(files, x, 0);
    if FileThere(files, disk, x) && x >= files[i].offset
    then disk[files[i].path := Written(disk[files[i].path], x - files[i].offset, [b])] else disk
  }

  function PutAll(files: seq<FileRegion>, disk: Disk, off: int, p: seq<byte>): (disk': Disk) {
    if p == [] then disk else Put(files, PutAll(files, disk, off, p[..|p| - 1]), off + |p| - 1, p[|p| - 1])
  }

  lemma {:induction false} PutAllConcat(files: seq<FileRegion>, disk: Disk, off: int, p: seq<byte>, q: seq<byte>)
    ensures PutAll(files, disk, off, p + q) == PutAll(files, PutAll(files, disk, off, p), off + |p|, q)
    decreases |q|
  {
    hide Put;
    if q == [] {
      assert p + q == p;
    } else {
      PutAllConcat(files, disk, off, p, q[..|q| - 1]);
      assert (p + q)[..|p + q| - 1] == p + q[..|q| - 1];
    }
  }

  lemma {:induction false} WrittenStep(f: seq<byte>, at: nat, p: seq<byte>)
    requires p != []
    ensures var n := |p| - 1; Written(Written(f, at, p[..n]), at + n, [p[n]]) == Written(f, at, p)
  {
    var n := |p| - 1;
    assert p == p[..n] + [p[n]];
    var g := Written(f, at, p[..n]);
    if n > 0 {
      if at + n <= |f| {
        assert g[..at + n] == f[..at] + p[..n];
        assert at + n < |f| ==> g[at + n + 1..] == f[at + n + 1..];
      } else {
        assert |g| == at + n && g[..at + n] == g;
      }
    }
  }

  /** A stretch inside one region is one write into one file. */
  lemma {:induction false} PutAllInRegion(files: seq<FileRegion>, total: int, disk: Disk, i: int, off: int, p: seq<byte>)
    requires Laid(files, total) && 0 <= i < |files| && files[i].offset <= off && off + |p| <= End(files[i]) && files[i].path in disk
    ensures PutAll(files, disk, off, p) == disk[files[i].path := Written(disk[files[i].path], off - files[i].offset, p)]
    decreases |p|
  {
    var f, at := disk[files[i].path], off - files[i].offset;
    if p == [] {
      assert disk[files[i].path := f] == disk;
    } else {
      hide Written, Laid;
      var n := |p| - 1;
      PutAllInRegion(files, total, disk, i, off, p[..n]);
      RegionOfHolds(files, total, off + n);
      assert Holds(files, i, off + n);
      WrittenStep(f, at, p);
    }
  }

  lemma {:induction false} SameRegion(files: seq<FileRegion>, total: int, i: int, off: int, n: nat)
    requires Laid(files, total) && Holds(files, i, off) && off + n <= End(files[i])
    ensures forall x :: off <= x < off + n ==> RegionOf(files, x, 0) == i
    ensures RegionOf(files, off, 0) == i
  {
    forall x | off <= x < End(files[i]) ensures RegionOf(files, x, 0) == i {
      RegionOfHolds(files, total, x);
      assert Holds(files, i, x);
    }
  }

  /** WriteAt's write into one file continues the bytes stored so far. */
  lemma {:induction false} ChunkIsOneWrite(files: seq<FileRegion>, total: int, disk0: Disk, disk: Disk, i: int, off: int, p: seq<byte>, written: nat, n: nat)
    requires Laid(files, total) && 0 <= i < |files| && files[i].path in disk
    requires files[i].offset <= off + written && off + written + n <= End(files[i]) && written + n <= |p|
    requires disk == PutAll(files, disk0, off, p[..written])
    ensures var disk' := disk[files[i].path := Written(disk[files[i].path], off + written - files[i].offset, p[written..written + n])];
            disk' == PutAll(files, disk0, off, p[..written + n]) && disk'.Keys == disk.Keys
  {
    hide Written, Laid;
    var chunk := p[written..written + n];
    PutAllInRegion(files, total, disk, i, off + written, chunk);
    PutAllConcat(files, disk0, off, p[..written], chunk);
    assert p[..written] + chunk == p[..written + n];
  }

  /** No two regions that hold bytes share a file. */
  ghost predicate DistinctPaths(files: seq<FileRegion>) {
    forall i, j :: 0 <= i < |files| && 0 <= j < |files| && files[i].length > 0 && files[j].length > 0 && files[i].path == files[j].path ==> i == j
  }

  lemma {:induction false} PutAllKeepsFiles(files: seq<FileRegion>, disk: Disk, off: int, p: seq<byte>)
    ensures PutAll(files, disk, off, p).Keys == disk.Keys
    decreases |p|
  {
    hide Written;
    if p != [] {
      PutAllKeepsFiles(files, disk, off, p[..|p| - 1]);
    }
  }

  /** The stretch between the end of a short file and x, which storing a byte at x fills with zeros. */
  predicate Gap(files: seq<FileRegion>, disk: Disk, x: int, y: int) {
    var i := RegionOf(files, x, 0);
    FileThere(files, disk, x) && RegionOf(files, y, 0) == i && |disk[files[i].path]| <= y - files[i].offset && y < x
  }

  lemma {:induction false} WrittenAt(f: seq<byte>, at: nat, b: byte, k: nat)
    requires k < |Written(f, at, [b])|
    ensures Written(f, at, [b])[k] == if k == at then b else if k < |f| then f[k] else 0
  {
  }

  lemma {:induction false} WrittenLength(f: seq<byte>, at: nat, b: byte)
    ensures |Written(f, at, [b])| == if at < |f| then |f| else at + 1
  {
  }

  /** With distinct paths, storing a byte changes that byte of the flat space, fills the gap before it, and nothing else. */
  lemma {:induction false} PutIsLocal(files: seq<FileRegion>, total: int, disk: Disk, x: int, b: byte, y: int)
    requires Laid(files, total) && DistinctPaths(files)
    ensures ByteAt(files, Put(files, disk, x, b), y)
         == if FileThere(files, disk, x) && x == y then Some(b) else if Gap(files, disk, x, y) then Some(0) else ByteAt(files, disk, y)
  {
    RegionOfHolds(files, total, x);
    RegionOfHolds(files, total, y);
    RegionOfFinds(files, x, 0);
    RegionOfFinds(files, y, 0);
    hide RegionOf, Laid, Written;
    var i := RegionOf(files, x, 0);
    if FileThere(files, disk, x) {
      var f, at := disk[files[i].path], x - files[i].offset;
      WrittenLength(f, at, b);
      if RegionOf(files, y, 0) == i && 0 <= y - files[i].offset < |Written(f, at, [b])| {
        WrittenAt(f, at, b, y - files[i].offset);
      }
    }
  }

  /** The flat space after p is written at off: its bytes, zeros in the gap before it in a short file, and the rest as before. */
  function Spliced(files: seq<FileRegion>, disk: Disk, off: int, p: seq<byte>, y: int): (b: Option<byte>) {
    if off <= y < off + |p| then Some(p[y - off]) else if p != [] && Gap(files, disk, off, y) then Some(0) else ByteAt(files, disk, y)
  }

  /** WriteAt changes exactly [off, off + |p|) of the flat space, and fills the gap before it in a short file. */
  lemma {:induction false} PutAllIsSplice(files: seq<FileRegion>, total: int, disk: Disk, off: int, p: seq<byte>, y: int)
    requires Laid(files, total) && DistinctPaths(files)
    requires forall x :: off <= x < off + |p| ==> FileThere(files, disk, x)
    ensures ByteAt(files, PutAll(files, disk, off, p), y) == Spliced(files, disk, off, p, y)
    decreases |p|
  {
    hide ByteAt, Put, Laid, DistinctPaths, FileThere, Gap;
    if p != [] {
      var n := |p| - 1;
      var d := PutAll(files, disk, off, p[..n]);
      PutAllIsSplice(files, total, disk, off, p[..n], y);
      PutAllKeepsFiles(files, disk, off, p[..n]);
      SameThere(files, disk, d, off + n);
      PutIsLocal(files, total, d, off + n, p[n], y);
      if n > 0 {
        PutAllIsSplice(files, total, disk, off, p[..n], off + n - 1);
        NoGapAfter(files, total, d, off + n, y);
      }
    }
  }

  lemma {:induction false} SameThere(files: seq<FileRegion>, disk: Disk, disk': Disk, x: int)
    requires disk.Keys == disk'.Keys
    ensures FileThere(files, disk, x) == FileThere(files, disk', x)
  {
  }

  /** Right behind a byte that is there, no gap opens. */
  lemma {:induction false} NoGapAfter(files: seq<FileRegion>, total: int, disk: Disk, x: int, y: int)
    requires Laid(files, total) && ByteAt(files, disk, x - 1).Some?
    ensures !Gap(files, disk, x, y)
  {
    RegionOfHolds(files, total, x);
    RegionOfHolds(files, total, x - 1);
    RegionOfHolds(files, total, y);
    RegionOfFinds(files, x, 0);
    RegionOfFinds(files, x - 1, 0);
    RegionOfFinds(files, y, 0);
    Between(files, RegionOf(files, x, 0), x, y);
    hide RegionOf, Laid;
  }

  lemma {:induction false} Between(files: seq<FileRegion>, i: int, x: int, y: int)
    ensures Holds(files, i, y) && Holds(files, i, x) && y < x ==> Holds(files, i, x - 1)
  {
  }

  /** Where every file exists, writing a byte is local for every offset and byte exactly when no two non-empty regions share a path. */
  lemma {:induction false} LocalIffDistinct(files: seq<FileRegion>, total: int, disk: Disk)
    requires Laid(files, total) && SizesHold(files, disk)
    requires forall i :: 0 <= i < |files| ==> files[i].path in disk
    ensures DistinctPaths(files) <==>
              (forall x, b, y :: 0 <= x < total ==>
                ByteAt(files, Put(files, disk, x, b), y) == if x == y then Some(b) else ByteAt(files, disk, y))
  {
    if DistinctPaths(files) {
      forall x, b, y | 0 <= x < total
        ensures ByteAt(files, Put(files, disk, x, b), y) == if x == y then Some(b) else ByteAt(files, disk, y)
      {
        PutIsLocal(files, total, disk, x, b, y);
        RegionOfHolds(files, total, x);
        NoGapIfAllocated(files, total, disk, x, y);
      }
    } else {
      var i, j :| 0 <= i < |files| && 0 <= j < |files| && files[i].length > 0 && files[j].length > 0 && files[i].path == files[j].path && i != j;
      SharedPathLeaks(files, total, disk, i, j);
    }
  }

  lemma {:induction false} NoGapIfAllocated(files: seq<FileRegion>, total: int, disk: Disk, x: int, y: int)
    requires Laid(files, total) && SizesHold(files, disk)
    ensures !Gap(files, disk, x, y)
  {
    RegionOfHolds(files, total, x);
    RegionOfFinds(files, x, 0);
    hide RegionOf, Laid;
  }

  /** Two regions in one file: a byte stored in the first shows up in the second. */
  lemma {:induction false} SharedPathLeaks(files: seq<FileRegion>, total: int, disk: Disk, i: int, j: int)
    requires Laid(files, total)
    requires 0 <= i < |files| && 0 <= j < |files| && i != j && files[i].length > 0 && files[j].length > 0 && files[i].path == files[j].path
    requires files[i].path in disk
    ensures var x, y := files[i].offset, files[j].offset;
            && 0 <= x < total && x != y
            && forall b :: ByteAt(files, Put(files, disk, x, b), y) == Some(b)
    ensures exists x, b, y :: 0 <= x < total && x != y && ByteAt(files, Put(files, disk, x, b), y) != ByteAt(files, disk, y)
  {
    var x, y := files[i].offset, files[j].offset;
    assert Holds(files, i, x) && Holds(files, j, y);
    RegionOfHolds(files, total, x);
    RegionOfHolds(files, total, y);
    var b: byte := if ByteAt(files, disk, y) == Some(0) then 1 else 0;
    assert ByteAt(files, Put(files, disk, x, b), y) == Some(b);
  }

  /** Equal gaps make two padding entries of a hybrid torrent one file on disk: here flat bytes 3 and 7 are the same byte. */
  lemma {:induction false} EqualPaddingIsOneFile(disk: Disk)
    requires disk.Keys == {"a", ".pad/1", "b"} && |disk["a"]| == 3 && |disk[".pad/1"]| == 1 && |disk["b"]| == 3
    ensures var files := [FileRegion("a", 0, 3), FileRegion(".pad/1", 3, 1), FileRegion("b", 4, 3), FileRegion(".pad/1", 7, 1)];
            && Laid(files, 8) && SizesHold(files, disk) && !DistinctPaths(files)
            && forall b :: ByteAt(files, Put(files, disk, 3, b), 7) == Some(b)
  {
    var files := [FileRegion("a", 0, 3), FileRegion(".pad/1", 3, 1), FileRegion("b", 4, 3), FileRegion(".pad/1", 7, 1)];
    SharedPathLeaks(files, 8, disk, 1, 3);
    assert files[1].path == files[3].path;
  }

  // ---------- the code ----------

  datatype IoError = NoError | NegativeOffset | Eof | Missing | UnexpectedEof | Overrun

  /** New's loop over the file list. */
  method LayOut(list: seq<(string, nat)>) returns (files: seq<FileRegion>, total: int)
    ensures Laid(files, total) && |files| == |list|
    ensures forall i :: 0 <= i < |list| ==> files[i].path == list[i].0 && files[i].length == list[i].1
  {
    files := [];
    total := 0;
    for i := 0 to |list|
      invariant Laid(files, total) && |files| == i
      invariant forall k :: 0 <= k < i ==> files[k].path == list[k].0 && files[k].length == list[k].1
    {
      files := files + [FileRegion(list[i].0, total, list[i].1)];
      total := total + list[i].1;
    }
  }

  class Storage {
    const files: seq<FileRegion>
    const total: int
    var disk: Disk

    ghost predicate Valid()
      reads this
    {
      Laid(files, total)
    }

    constructor (files: seq<FileRegion>, total: int, disk: Disk)
      requires Laid(files, total)
      ensures Valid() && this.files == files && this.total == total && this.disk == disk
    {
      this.files, this.total, this.disk := files, total, disk;
    }

    /** regionAt: the binary search finds the region of every offset in the torrent, which has room there. */
    method RegionAt(offset: int) returns (i: int)
      requires Valid()
      ensures i == RegionOf(files, offset, 0)
      ensures 0 <= offset < total ==> Holds(files, i, offset)
    {
      RegionOfHolds(files, total, offset);
      RegionOfFinds(files, offset, 0);
      forall j, k | 0 <= j <= k < |files| ensures End(files[j]) <= End(files[k]) {
        ChainUp(files, total, j, k);
      }
      hide RegionOf, Laid;
      var endsPast := (k: nat) => k < |files| && End(files[k]) > offset;
      var found := Geometry.Search(|files|, endsPast);
      assert found < |files| ==> endsPast(found);
      ghost var r := RegionOf(files, offset, 0);
      if r != -1 {
        assert endsPast(r);
        if found < r {
          RiseTo(found, r);
        }
      }
      if found < |files| && files[found].offset <= offset {
        assert Holds(files, found, offset);
        return found;
      }
      i := -1;
    }

    lemma {:induction false} RiseTo(i: int, j: int)
      requires Laid(files, total) && 0 <= i < j < |files|
      ensures End(files[i]) <= files[j].offset
    {
      ChainUp(files, total, i, j);
    }

    /** Opening a file that is not there fails. */
    method ReadFile(path: string, at: nat, want: nat) returns (data: Option<seq<byte>>)
      ensures data.Some? <==> path in disk
      ensures data.Some? ==> data.value == if at >= |disk[path]| then [] else disk[path][at..Min(at + want, |disk[path]|)]
    {
      if path !in disk {
        return None;
      }
      var f := disk[path];
      data := Some(if at >= |f| then [] else f[at..Min(at + want, |f|)]);
    }

    /** ReadAt: as many bytes of the flat space as there are from off on, up to the buffer, stopping at a file that is missing or too short. */
    method ReadAt(p: array<byte>, off: int) returns (read: int, err: IoError)
      requires Valid()
      modifies p
      ensures 0 <= read <= p.Length
      ensures off < 0 ==> read == 0 && err == NegativeOffset
      ensures off >= 0 ==> err != NegativeOffset && err != Overrun && off + read <= if off > total then off else total
      ensures off >= 0 ==> (err == NoError <==> read == p.Length && (p.Length > 0 || off < total))
      ensures off >= 0 ==> (err == Eof <==> (read < p.Length || p.Length == 0) && off + read >= total)
      ensures err == Missing ==> off + read < total && !FileThere(files, disk, off + read)
      ensures err == UnexpectedEof ==> off + read < total && FileThere(files, disk, off + read) && ByteAt(files, disk, off + read) == None
      ensures forall k :: 0 <= k < read ==> ByteAt(files, disk, off + k) == Some(p[k])
      ensures forall k :: read <= k < p.Length ==> p[k] == old(p[k])
    {
      if off < 0 {
        return 0, NegativeOffset;
      }
      if off >= total {
        return 0, Eof;
      }
      if p.Length == 0 {
        return 0, NoError;
      }
      hide RegionOf, Laid;
      read := 0;
      while read < p.Length
        invariant 0 <= read <= p.Length && off + read <= total
        invariant forall k :: 0 <= k < read ==> ByteAt(files, disk, off + k) == Some(p[k])
        invariant forall k :: read <= k < p.Length ==> p[k] == old(p[k])
        decreases p.Length - read
      {
        var current := off + read;
        if current >= total {
          return read, Eof;
        }
        var n;
        n, err := ReadChunk(p, off, read);
        read := read + n;
        if err != NoError {
          return;
        }
      }
      err := NoError;
    }

    /** One turn of ReadAt's loop: what is left of one region. */
    method ReadChunk(p: array<byte>, off: int, read: int) returns (n: int, err: IoError)
      requires Valid() && off >= 0 && 0 <= read < p.Length && off + read < total
      modifies p
      ensures err == NoError || err == Missing || err == UnexpectedEof
      ensures err == Missing ==> n == 0 && !FileThere(files, disk, off + read)
      ensures err == UnexpectedEof ==> FileThere(files, disk, off + read + n) && ByteAt(files, disk, off + read + n) == None
      ensures err == UnexpectedEof ==> read + n < p.Length && off + read + n < total
      ensures 0 <= n <= p.Length - read && off + read + n <= total && (err == NoError ==> n > 0)
      ensures forall k :: read <= k < read + n ==> ByteAt(files, disk, off + k) == Some(p[k])
      ensures forall k :: 0 <= k < p.Length && !(read <= k < read + n) ==> p[k] == old(p[k])
    {
      var current := off + read;
      var idx := RegionAt(current);
      var region := files[idx];
      EndsRise(files, total, idx, idx);
      var want := p.Length - read;
      var room := End(region) - current;
      if want > room {
        want := room;
      }
      forall x | current <= x < current + want ensures RegionOf(files, x, 0) == idx {
        RegionOfHolds(files, total, x);
        assert Holds(files, idx, x);
      }
      var data := ReadFile(region.path, current - region.offset, want);
      if data.None? {
        return 0, Missing;
      }
      n := |data.value|;
      forall k | 0 <= k < n {
        p[read + k] := data.value[k];
      }
      if n < want {
        return n, UnexpectedEof;
      }
      err := NoError;
    }

    /** WriteAt: every byte is stored, or the write stops at the first file that is missing; a write past the end is refused whole. */
    method WriteAt(p: seq<byte>, off: int) returns (written: int, err: IoError)
      requires Valid()
      modifies this
      ensures Valid() && 0 <= written <= |p|
      ensures disk == PutAll(files, old(disk), off, p[..written])
      ensures err == NegativeOffset <==> off < 0
      ensures err == Overrun <==> off >= 0 && off + |p| > total
      ensures err == NegativeOffset || err == Overrun ==> written == 0
      ensures err == NoError <==> off >= 0 && off + |p| <= total && written == |p|
      ensures err == Missing ==> !FileThere(files, old(disk), off + written)
      ensures forall x :: off <= x < off + written ==> FileThere(files, old(disk), x)
      ensures err == NoError || err == NegativeOffset || err == Overrun || err == Missing
      ensures DistinctPaths(files) ==> forall y :: ByteAt(files, disk, y) == Spliced(files, old(disk), off, p[..written], y)
    {
      if off < 0 {
        assert p[..0] == [];
        return 0, NegativeOffset;
      }
      if off + |p| > total {
        assert p[..0] == [];
        return 0, Overrun;
      }
      written := 0;
      hide RegionOf, Laid, ByteAt, FileThere, Gap, Spliced;
      assert p[..0] == [];
      err := NoError;
      while written < |p|
        invariant err == NoError && Valid() && 0 <= written <= |p| && disk == PutAll(files, old(disk), off, p[..written]) && disk.Keys == old(disk).Keys
        invariant forall x :: off <= x < off + written ==> FileThere(files, old(disk), x)
      {
        var n;
        ghost var d := disk;
        n, err := WriteChunk(p, off, written, old(disk));
        if err != NoError {
          break;
        }
        written := written + n;
      }
      if DistinctPaths(files) {
        forall y ensures ByteAt(files, disk, y) == Spliced(files, old(disk), off, p[..written], y) {
          PutAllIsSplice(files, total, old(disk), off, p[..written], y);
        }
      }
    }

    /** One turn of WriteAt's loop. */
    method WriteChunk(p: seq<byte>, off: int, written: int, ghost disk0: Disk) returns (n: int, err: IoError)
      requires Valid() && off >= 0 && 0 <= written < |p| && off + |p| <= total
      requires disk == PutAll(files, disk0, off, p[..written]) && disk.Keys == disk0.Keys
      modifies this
      ensures Valid() && disk.Keys == disk0.Keys
      ensures err == NoError || (err == Missing && disk == old(disk) && !FileThere(files, disk0, off + written))
      ensures err == NoError ==> 0 < n <= |p| - written && disk == PutAll(files, disk0, off, p[..written + n])
      ensures err == NoError ==> forall x :: off + written <= x < off + written + n ==> FileThere(files, disk0, x)
    {
      hide RegionOf, Laid, PutAll, Put, ByteAt;
      var current := off + written;
      var idx := RegionAt(current);
      var region := files[idx];
      var want := |p| - written;
      var room := End(region) - current;
      if want > room {
        want := room;
      }
      SameRegion(files, total, idx, current, want);
      if region.path !in disk {
        return 0, Missing;
      }
      ChunkIsOneWrite(files, total, disk0, disk, idx, off, p, written, want);
      var f, at := disk[region.path], current - region.offset;
      disk := disk[region.path := Written(f, at, p[written..written + want])];
      n, err := want, NoError;
    }
  }
}
