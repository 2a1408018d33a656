/** The flat piece space of a v2 torrent: internal/metainfo/v2.go and storage/verify.go's PieceOffset. */
module Geometry {
  import opened Bytes

  datatype V2File = V2File(path: seq<string>, length: nat, root: Hash)

  /** One file's run of global piece indices. */
  datatype Run = Run(fileIndex: nat, startPiece: nat, numPieces: nat)

  // ---------- specification ----------

  function PiecesIn(length: nat, pieceLength: nat): (n: nat)
    requires pieceLength > 0
  {
    (length + pieceLength - 1) / pieceLength
  }

  /** How many pieces the first k files take. */
  function FirstPiece(files: seq<V2File>, pieceLength: nat, k: nat): (n: nat)
    requires pieceLength > 0 && k <= |files|
  {
    if k == 0 then 0 else FirstPiece(files, pieceLength, k - 1) + PiecesIn(files[k - 1].length, pieceLength)
  }

  function TotalPieces(files: seq<V2File>, pieceLength: nat): (n: nat)
    requires pieceLength > 0
  {
    FirstPiece(files, pieceLength, |files|)
  }

  /** File k covers global piece `index`. */
  predicate Covers(files: seq<V2File>, pieceLength: nat, k: nat, index: int)
    requires pieceLength > 0
  {
    k < |files| && FirstPiece(files, pieceLength, k) <= index < FirstPiece(files, pieceLength, k + 1)
  }

  lemma {:induction false} FirstPieceMonotone(files: seq<V2File>, pieceLength: nat, j: nat, k: nat)
    requires pieceLength > 0 && j <= k <= |files|
    ensures FirstPiece(files, pieceLength, j) <= FirstPiece(files, pieceLength, k)
    decreases k
  {
    if j < k {
      FirstPieceMonotone(files, pieceLength, j, k - 1);
    }
  }

  lemma {:induction false} CoversUnique(files: seq<V2File>, pieceLength: nat, j: nat, k: nat, index: int)
    requires pieceLength > 0 && Covers(files, pieceLength, j, index) && Covers(files, pieceLength, k, index)
    ensures j == k
  {
    if j < k {
      FirstPieceMonotone(files, pieceLength, j + 1, k);
    } else if k < j {
      FirstPieceMonotone(files, pieceLength, k + 1, j);
    }
  }

  /** Every piece of the torrent belongs to some file; the file is found walking down. */
  function FileOf(files: seq<V2File>, pieceLength: nat, index: nat): (k: nat)
    requires pieceLength > 0 && index < TotalPieces(files, pieceLength)
    ensures Covers(files, pieceLength, k, index)
  {
    FileBelow(files, pieceLength, index, |files|)
  }

  function FileBelow(files: seq<V2File>, pieceLength: nat, index: nat, k: nat): (j: nat)
    requires pieceLength > 0 && k <= |files| && index < FirstPiece(files, pieceLength, k)
    ensures Covers(files, pieceLength, j, index)
    decreases k
  {
    if FirstPiece(files, pieceLength, k - 1) <= index then k - 1
    else FileBelow(files, pieceLength, index, k - 1)
  }

  // ---------- the run table ----------

  /** The runs of the non-empty files among the first k, in order. */
  function RunsOf(files: seq<V2File>, pieceLength: nat, k: nat): (runs: seq<Run>)
    requires pieceLength > 0 && k <= |files|
  {
    if k == 0 then []
    else RunsOf(files, pieceLength, k - 1)
         + if files[k - 1].length == 0 then []
           else [Run(k - 1, FirstPiece(files, pieceLength, k - 1), PiecesIn(files[k - 1].length, pieceLength))]
  }

  /** j pieces' worth of bytes, kept linear for the proofs. */
  function Scale(j: nat, pieceLength: nat): (n: nat) {
    if j == 0 then 0 else Scale(j - 1, pieceLength) + pieceLength
  }

  lemma {:induction false} ScaleIsProduct(j: nat, pieceLength: nat)
    ensures Scale(j, pieceLength) == j * pieceLength
  {
    if j > 0 {
      ScaleIsProduct(j - 1, pieceLength);
      assert (j - 1) * pieceLength + pieceLength == j * pieceLength;
    }
  }

  lemma {:induction false} ScaleMonotone(i: nat, j: nat, pieceLength: nat)
    requires i <= j
    ensures Scale(i, pieceLength) <= Scale(j, pieceLength)
  {
    if i < j {
      ScaleMonotone(i, j - 1, pieceLength);
    }
  }

  lemma {:induction false} PiecesInPositive(length: nat, pieceLength: nat)
    requires pieceLength > 0
    ensures PiecesIn(length, pieceLength) == 0 <==> length == 0
    ensures length > 0 ==> Scale(PiecesIn(length, pieceLength) - 1, pieceLength) < length <= Scale(PiecesIn(length, pieceLength), pieceLength)
  {
    var n := PiecesIn(length, pieceLength);
    var r := (length + pieceLength - 1) % pieceLength;
    assert length + pieceLength - 1 == pieceLength * n + r;
    ScaleIsProduct(n, pieceLength);
    if length == 0 {
      DivModUnique(pieceLength - 1, pieceLength, 0, pieceLength - 1);
    }
  }

  /** A run names a non-empty file and carries exactly that file's pieces. */
  ghost predicate RunRight(files: seq<V2File>, pieceLength: nat, run: Run)
    requires pieceLength > 0
  {
    && run.fileIndex < |files| && files[run.fileIndex].length > 0
    && run.startPiece == FirstPiece(files, pieceLength, run.fileIndex)
    && run.startPiece + run.numPieces == FirstPiece(files, pieceLength, run.fileIndex + 1)
  }

  ghost predicate Chained(files: seq<V2File>, pieceLength: nat, k: nat, runs: seq<Run>)
    requires pieceLength > 0 && k <= |files|
  {
    && (forall i :: 0 <= i < |runs| ==> RunRight(files, pieceLength, runs[i]) && runs[i].fileIndex < k)
    && (forall i, j :: 0 <= i < j < |runs| ==> runs[i].fileIndex < runs[j].fileIndex)
    && (if runs == [] then 0 else runs[|runs| - 1].startPiece + runs[|runs| - 1].numPieces) == FirstPiece(files, pieceLength, k)
  }

  lemma {:induction false} RunsChained(files: seq<V2File>, pieceLength: nat, k: nat)
    requires pieceLength > 0 && k <= |files|
    ensures Chained(files, pieceLength, k, RunsOf(files, pieceLength, k))
  {
    hide PiecesIn;
    if k > 0 {
      RunsChained(files, pieceLength, k - 1);
      PiecesInPositive(files[k - 1].length, pieceLength);
    }
  }

  lemma {:induction false} RunOfFile(files: seq<V2File>, pieceLength: nat, k: nat, f: nat) returns (i: nat)
    requires pieceLength > 0 && f < k <= |files| && files[f].length > 0
    ensures i < |RunsOf(files, pieceLength, k)| && RunsOf(files, pieceLength, k)[i].fileIndex == f
  {
    if f == k - 1 {
      i := |RunsOf(files, pieceLength, k - 1)|;
    } else {
      i := RunOfFile(files, pieceLength, k - 1, f);
    }
  }

  lemma {:induction false} RunsInOrder(files: seq<V2File>, pieceLength: nat, runs: seq<Run>, i: nat, j: nat)
    requires pieceLength > 0 && Chained(files, pieceLength, |files|, runs) && i < j < |runs|
    ensures runs[i].startPiece + runs[i].numPieces <= runs[j].startPiece
  {
    FirstPieceMonotone(files, pieceLength, runs[i].fileIndex + 1, runs[j].fileIndex);
  }

  method BuildV2PieceRuns(files: seq<V2File>, pieceLength: nat) returns (runs: seq<Run>)
    requires pieceLength > 0
    ensures runs == RunsOf(files, pieceLength, |files|)
  {
    runs := [];
    var next := 0;
    for i := 0 to |files|
      invariant runs == RunsOf(files, pieceLength, i) && next == FirstPiece(files, pieceLength, i)
    {
      PiecesInPositive(files[i].length, pieceLength);
      if files[i].length != 0 {
        var n := (files[i].length + pieceLength - 1) / pieceLength;
        runs := runs + [Run(i, next, n)];
        next := next + n;
      }
    }
  }

  method V2TotalPieces(files: seq<V2File>, pieceLength: nat, runs: seq<Run>) returns (n: nat)
    requires pieceLength > 0 && runs == RunsOf(files, pieceLength, |files|)
    ensures n == TotalPieces(files, pieceLength)
  {
    RunsChained(files, pieceLength, |files|);
    if |runs| == 0 {
      return 0;
    }
    var last := runs[|runs| - 1];
    n := last.startPiece + last.numPieces;
  }

  /** sort.Search: the least index at which a monotone predicate holds, or n. */
  method Search(n: nat, f: nat -> bool) returns (i: nat)
    requires forall j, k :: 0 <= j <= k < n && f(j) ==> f(k)
    ensures i <= n
    ensures forall k: nat :: k < i ==> !f(k)
    ensures forall k: nat :: i <= k < n ==> f(k)
  {
    var j := n;
    i := 0;
    while i < j
      invariant i <= j <= n
      invariant forall k: nat :: k < i ==> !f(k)
      invariant forall k: nat :: j <= k < n ==> f(k)
    {
      var mid := (i + j) / 2;
      if !f(mid) {
        i := mid + 1;
      } else {
        j := mid;
      }
    }
  }

  /** PieceFile: which file a global piece falls in, and where in that file the piece begins. */
  method PieceFile(files: seq<V2File>, pieceLength: nat, runs: seq<Run>, index: int)
    returns (fileIndex: nat, offsetInFile: int, ok: bool)
    requires pieceLength > 0 && runs == RunsOf(files, pieceLength, |files|)
    ensures ok <==> 0 <= index < TotalPieces(files, pieceLength)
    ensures ok ==> fileIndex == FileOf(files, pieceLength, index) && offsetInFile == OffsetInFile(files, pieceLength, index)
  {
    hide PiecesIn, FirstPiece, RunsOf, Scale;
    RunsChained(files, pieceLength, |files|);
    forall i, j | 0 <= i < j < |runs| ensures runs[i].startPiece + runs[i].numPieces <= runs[j].startPiece {
      RunsInOrder(files, pieceLength, runs, i, j);
    }
    var endsPast := (i: nat) => i < |runs| && runs[i].startPiece + runs[i].numPieces > index;
    var i := Search(|runs|, endsPast);
    assert i < |runs| ==> endsPast(i);
    if 0 <= index < TotalPieces(files, pieceLength) {
      ghost var k := FileOf(files, pieceLength, index);
      CoveredIsNonEmpty(files, pieceLength, k, index);
      ghost var r := RunOfFile(files, pieceLength, |files|, k);
      assert RunRight(files, pieceLength, runs[r]) && endsPast(r);
    }
    if i == |runs| || index < runs[i].startPiece {
      return 0, 0, false;
    }
    var run := runs[i];
    assert RunRight(files, pieceLength, run);
    FirstPieceMonotone(files, pieceLength, run.fileIndex + 1, |files|);
    CoversUnique(files, pieceLength, run.fileIndex, FileOf(files, pieceLength, index), index);
    ScaleIsProduct(index - run.startPiece, pieceLength);
    return run.fileIndex, (index - run.startPiece) * pieceLength, true;
  }

  lemma {:induction false} CoveredIsNonEmpty(files: seq<V2File>, pieceLength: nat, k: nat, index: int)
    requires pieceLength > 0 && Covers(files, pieceLength, k, index)
    ensures files[k].length > 0
  {
    PiecesInPositive(files[k].length, pieceLength);
  }

  /** V2FilePieceRange: the first and last global piece of a file; none for an empty or unknown file. */
  method V2FilePieceRange(files: seq<V2File>, pieceLength: nat, runs: seq<Run>, fileIndex: int)
    returns (first: int, last: int, ok: bool)
    requires pieceLength > 0 && runs == RunsOf(files, pieceLength, |files|)
    ensures ok <==> 0 <= fileIndex < |files| && files[fileIndex].length > 0
    ensures ok ==> first == FirstPiece(files, pieceLength, fileIndex) && last == FirstPiece(files, pieceLength, fileIndex + 1) - 1
  {
    hide PiecesIn, FirstPiece, RunsOf;
    RunsChained(files, pieceLength, |files|);
    for i := 0 to |runs|
      invariant forall j :: 0 <= j < i ==> runs[j].fileIndex != fileIndex
    {
      assert RunRight(files, pieceLength, runs[i]);
      if runs[i].fileIndex == fileIndex {
        return runs[i].startPiece, runs[i].startPiece + runs[i].numPieces - 1, true;
      }
    }
    if 0 <= fileIndex < |files| && files[fileIndex].length > 0 {
      ghost var r := RunOfFile(files, pieceLength, |files|, fileIndex);
      assert false;
    }
    return 0, 0, false;
  }

  /** The two directions are inverse: a file's range holds exactly the pieces that resolve to it. */
  lemma {:induction false} RangeIsInverse(files: seq<V2File>, pieceLength: nat, index: int, k: nat)
    requires pieceLength > 0 && k < |files|
    ensures (0 <= index < TotalPieces(files, pieceLength) && FileOf(files, pieceLength, index) == k)
       <==> FirstPiece(files, pieceLength, k) <= index <= FirstPiece(files, pieceLength, k + 1) - 1
    ensures Covers(files, pieceLength, k, index) ==> files[k].length > 0
  {
    FirstPieceMonotone(files, pieceLength, 0, k);
    FirstPieceMonotone(files, pieceLength, k + 1, |files|);
    PiecesInPositive(files[k].length, pieceLength);
    if Covers(files, pieceLength, k, index) {
      CoversUnique(files, pieceLength, k, FileOf(files, pieceLength, index), index);
    }
  }

  // ---------- bytes ----------

  /** Where file k starts when the files are packed back to back. */
  function FileOffset(files: seq<V2File>, k: nat): (off: nat)
    requires k <= |files|
  {
    if k == 0 then 0 else FileOffset(files, k - 1) + files[k - 1].length
  }

  function TotalLength(files: seq<V2File>): (n: nat) {
    FileOffset(files, |files|)
  }

  function OffsetInFile(files: seq<V2File>, pieceLength: nat, index: nat): (off: nat)
    requires pieceLength > 0 && index < TotalPieces(files, pieceLength)
  {
    Scale(index - FirstPiece(files, pieceLength, FileOf(files, pieceLength, index)), pieceLength)
  }

  /** PieceLen for a pure-v2 torrent. */
  function PieceLen(files: seq<V2File>, pieceLength: nat, index: nat): (n: int)
    requires pieceLength > 0 && index < TotalPieces(files, pieceLength)
  {
    Min(files[FileOf(files, pieceLength, index)].length - OffsetInFile(files, pieceLength, index), pieceLength)
  }

  /** PieceOffset for a pure-v2 torrent, whose regions are its files packed back to back. */
  function PieceOffset(files: seq<V2File>, pieceLength: nat, index: nat): (off: int)
    requires pieceLength > 0 && index < TotalPieces(files, pieceLength)
  {
    FileOffset(files, FileOf(files, pieceLength, index)) + OffsetInFile(files, pieceLength, index)
  }

  /** No piece is empty or straddles a file. */
  lemma {:induction false} PieceInsideFile(files: seq<V2File>, pieceLength: nat, index: nat)
    requires pieceLength > 0 && index < TotalPieces(files, pieceLength)
    ensures var k, off, len := FileOf(files, pieceLength, index), OffsetInFile(files, pieceLength, index), PieceLen(files, pieceLength, index);
            0 <= off && 0 < len <= pieceLength && off + len <= files[k].length
            && (off + len < files[k].length ==> len == pieceLength)
            && (index + 1 == FirstPiece(files, pieceLength, k + 1) <==> off + len == files[k].length)
  {
    hide PiecesIn;
    var k := FileOf(files, pieceLength, index);
    var j, n := index - FirstPiece(files, pieceLength, k), PiecesIn(files[k].length, pieceLength);
    PiecesInPositive(files[k].length, pieceLength);
    ScaleMonotone(j, n - 1, pieceLength);
    if j < n - 1 {
      ScaleMonotone(j + 1, n - 1, pieceLength);
    }
  }

  lemma {:induction false} SkipEmpty(files: seq<V2File>, pieceLength: nat, j: nat, k: nat)
    requires pieceLength > 0 && j <= k <= |files|
    requires FirstPiece(files, pieceLength, j) == FirstPiece(files, pieceLength, k)
    ensures FileOffset(files, j) == FileOffset(files, k)
    decreases k
  {
    hide PiecesIn;
    if j < k {
      FirstPieceMonotone(files, pieceLength, j, k - 1);
      PiecesInPositive(files[k - 1].length, pieceLength);
      SkipEmpty(files, pieceLength, j, k - 1);
    }
  }

  /**
   * The pieces partition [0, TotalLength) in order: the first starts at 0, each ends where the next
   * starts, and the last ends at the end.
   */
  lemma {:induction false} PiecesPartition(files: seq<V2File>, pieceLength: nat, index: nat)
    requires pieceLength > 0 && index < TotalPieces(files, pieceLength)
    ensures index == 0 ==> PieceOffset(files, pieceLength, index) == 0
    ensures PieceOffset(files, pieceLength, index) + PieceLen(files, pieceLength, index)
         == if index + 1 < TotalPieces(files, pieceLength) then PieceOffset(files, pieceLength, index + 1) else TotalLength(files)
  {
    hide PiecesIn, FirstPiece, FileBelow;
    var k := FileOf(files, pieceLength, index);
    PieceInsideFile(files, pieceLength, index);
    FirstPieceMonotone(files, pieceLength, k + 1, |files|);
    if index == 0 {
      FirstPieceMonotone(files, pieceLength, 0, k);
      SkipEmpty(files, pieceLength, 0, k);
    }
    if index + 1 < FirstPiece(files, pieceLength, k + 1) {
      CoversUnique(files, pieceLength, k, FileOf(files, pieceLength, index + 1), index + 1);
    } else if index + 1 < TotalPieces(files, pieceLength) {
      var k' := FileOf(files, pieceLength, index + 1);
      PieceInsideFile(files, pieceLength, index + 1);
      if k' < k + 1 {
        FirstPieceMonotone(files, pieceLength, k' + 1, k + 1);
      }
      FirstPieceMonotone(files, pieceLength, k + 1, k');
      SkipEmpty(files, pieceLength, k + 1, k');
    } else {
      SkipEmpty(files, pieceLength, k + 1, |files|);
    }
  }
}
