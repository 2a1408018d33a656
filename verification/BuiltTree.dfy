/** The file tree that the builder fills, walked by the parser: when the files come back. */
module BuiltTree {
  import opened Bytes
  import opened Bencode
  import opened Merkle
  import opened HashFile
  import opened Create
  import opened BuildV2
  import opened Geometry
  import opened Paths
  import opened FileTree
  import opened TreeWalk

  /** What a parsed file tree should say of a file. */
  function ExpectedFile(h: Sha256, f: CreateFile, name: string, single: bool, size: nat, bpp: nat): (v: V2File)
    requires f.Readable() && size > 0 && IsPow2(bpp)
  {
    var e := EntryOf(h, f, size, bpp);
    V2File(PathOf(f, name, single), e.length, e.root)
  }

  function Expected(h: Sha256, files: seq<CreateFile>, name: string, single: bool, size: nat, bpp: nat): (v2: seq<V2File>)
    requires AllReadable(files) && size > 0 && IsPow2(bpp)
    ensures |v2| == |files|
  {
    seq(|files|, i requires 0 <= i < |files| => ExpectedFile(h, files[i], name, single, size, bpp))
  }

  /** The parsed files are the given ones, in some order. */
  ghost predicate Lists(v2: seq<V2File>, files: seq<V2File>) {
    multiset(v2) == multiset(files)
  }

  /** Every path is safe, and none of them is another or leads to another. */
  ghost predicate PathsFit(files: seq<CreateFile>, name: string, single: bool) {
    && (forall i :: 0 <= i < |files| ==> ValidPath(PathOf(files[i], name, single)))
    && (forall i, j :: 0 <= i < j < |files| ==> Apart(PathOf(files[i], name, single), PathOf(files[j], name, single)))
  }

  // ---------- digests have their length ----------

  lemma {:induction false} RootsSized(h: Sha256, level: seq<Hash>)
    requires IsSha256(h) && IsPow2(|level|) && (|level| == 1 ==> Sized(level[0]))
    ensures Sized(RootOf(h, level))
    decreases |level|
  {
    if |level| > 1 {
      LevelUpAt(h, level, 0);
      RootsSized(h, LevelUp(h, level));
    }
  }

  lemma {:induction false} PieceRootsSized(h: Sha256, pieces: seq<seq<byte>>, bpp: nat, sole: bool)
    requires IsSha256(h) && IsPow2(bpp)
    ensures forall i :: 0 <= i < |pieces| ==> Sized(PieceRoots(h, pieces, bpp, sole)[i])
  {
    if pieces != [] {
      PieceRootsSized(h, pieces[1..], bpp, sole);
      var leaves := LeavesOf(h, pieces[0]);
      var target := if sole then NextPow2Of(|leaves|) else bpp;
      assert target == 1 ==> Sized(PadLeaves(leaves, target)[0]) by {
        if |leaves| > 0 {
          assert leaves[0] == h.leaf(Chunks(pieces[0], BLOCK_SIZE)[0]);
        }
      }
      RootsSized(h, PadLeaves(leaves, target));
    }
  }

  lemma {:induction false} EntrySized(h: Sha256, f: CreateFile, size: nat, bpp: nat)
    requires IsSha256(h) && f.Readable() && size > 0 && IsPow2(bpp)
    ensures var e := EntryOf(h, f, size, bpp);
            e.length == f.length && (if e.length > 0 then Sized(e.root) else e.root == ZERO_HASH)
  {
    hide PieceRoots, Chunks, RootOf;
    if f.length > 0 {
      var pieces := Chunks(f.Content(), size);
      var roots := PieceRoots(h, pieces, bpp, f.length <= size);
      ChunksUnfold(f.Content(), size);
      PieceRootsSized(h, pieces, bpp, f.length <= size);
      var level := PadWith(roots, NextPow2Of(|roots|), ZeroPiece(h, bpp));
      assert level[0] == roots[0];
      RootsSized(h, level);
    }
  }

  // ---------- a leaf read back ----------

  function LeafEntries(length: int, root: Hash): (es: seq<Entry>) {
    [Entry("length", Int(length))] + if length > 0 then [Entry("pieces root", Str(Chars(root.bytes)))] else []
  }

  lemma {:induction false} LeafReads(length: nat, root: Hash, path: Path)
    requires ValidPath(path) && (if length > 0 then Sized(root) else root == ZERO_HASH)
    ensures LeafNode(length, root) == Dict([Entry("", Dict(LeafEntries(length, root)))])
    ensures FileAt(Dict(LeafEntries(length, root)), path) == Ok(V2File(path, length, root))
    ensures KeysOrdered(LeafEntries(length, root))
  {
    hide ValidPath;
    BytesInChars(root.bytes);
    LeafEntriesOrdered(length, root);
    var es := LeafEntries(length, root);
    assert "length"[0] != "pieces root"[0];
    if length > 0 {
      assert es[1..] == [Entry("pieces root", Str(Chars(root.bytes)))];
      assert Find(es[1..], "pieces root") == Some(Str(Chars(root.bytes)));
    } else {
      assert Find(es[1..], "pieces root") == None;
    }
  }

  lemma {:induction false} LeafEntriesOrdered(length: int, root: Hash)
    ensures KeysOrdered(LeafEntries(length, root))
  {
    var es := LeafEntries(length, root);
    assert "length"[0] < "pieces root"[0];
    assert ChildrenOrdered([]);
    if length > 0 {
      var rest := es[1..];
      assert rest == [es[1]] && rest[1..] == [];
      assert ChildrenOrdered(rest) && Ascending(rest);
    } else {
      assert es[1..] == [];
    }
  }

  // ---------- the walk over the built tree ----------

  lemma {:induction false} ExpectedFront(h: Sha256, files: seq<CreateFile>, name: string, single: bool, size: nat, bpp: nat)
    requires AllReadable(files) && size > 0 && IsPow2(bpp) && files != []
    ensures var n := |files| - 1;
            Expected(h, files, name, single, size, bpp) == Expected(h, files[..n], name, single, size, bpp) + [ExpectedFile(h, files[n], name, single, size, bpp)]
  {
    hide ExpectedFile;
  }

  /** Files with fitting paths all come back, each in its place. */
  lemma {:induction false} BuiltTreeWalks(h: Sha256, files: seq<CreateFile>, name: string, single: bool, size: nat, bpp: nat)
    requires IsSha256(h) && AllReadable(files) && size > 0 && IsPow2(bpp) && Placed(files, single) && PathsFit(files, name, single)
    ensures var tree := TreeOf(h, files, name, single, size, bpp);
            && KeysOrdered(tree) && !IsLeaf(tree) && WalkAll(tree, []).Ok?
            && Lists(WalkAll(tree, []).value, Expected(h, files, name, single, size, bpp))
  {
    hide EntryOf, WalkAll, ValidPath, Apart, KeysOrdered, Put, FileAt, Free, IsLeaf;
    if files == [] {
      EmptyTree();
    } else {
      var n := |files| - 1;
      var front, f := files[..n], files[n];
      var path, e := PathOf(f, name, single), EntryOf(h, f, size, bpp);
      BuiltTreeWalks(h, front, name, single, size, bpp);
      EntrySized(h, f, size, bpp);
      LeafReads(e.length, e.root, path);
      StillFree(h, files, name, single, size, bpp, WalkAll(TreeOf(h, front, name, single, size, bpp), []).value);
      assert [] + path == path;
      var k := PutWalk(TreeOf(h, front, name, single, size, bpp), [], path, Dict(LeafEntries(e.length, e.root)), ExpectedFile(h, f, name, single, size, bpp));
      ExpectedFront(h, files, name, single, size, bpp);
      Inserted(WalkAll(TreeOf(h, front, name, single, size, bpp), []).value, k, ExpectedFile(h, f, name, single, size, bpp));
    }
  }

  lemma {:induction false} EmptyTree()
    ensures KeysOrdered([]) && !IsLeaf([]) && WalkAll([], []) == Ok([])
  {
  }

  lemma {:induction false} Inserted(v2: seq<V2File>, k: nat, f: V2File)
    requires k <= |v2|
    ensures multiset(v2[..k] + [f] + v2[k..]) == multiset(v2) + multiset{f}
  {
    assert v2 == v2[..k] + v2[k..];
  }

  lemma {:induction false} StillFree(h: Sha256, files: seq<CreateFile>, name: string, single: bool, size: nat, bpp: nat, v2: seq<V2File>)
    requires AllReadable(files) && size > 0 && IsPow2(bpp) && files != [] && PathsFit(files, name, single)
    requires Lists(v2, Expected(h, files[..|files| - 1], name, single, size, bpp))
    ensures Free(v2, PathOf(files[|files| - 1], name, single)) && "" !in PathOf(files[|files| - 1], name, single)
  {
    hide EntryOf;
    var n := |files| - 1;
    var before := Expected(h, files[..n], name, single, size, bpp);
    forall g | g in v2 ensures Apart(g.path, PathOf(files[n], name, single)) {
      assert g in multiset(v2);
      assert g in multiset(before);
      var i :| 0 <= i < n && before[i] == g;
    }
    forall i | 0 <= i < |PathOf(files[n], name, single)| ensures PathOf(files[n], name, single)[i] != "" {
      assert ValidSegment(PathOf(files[n], name, single)[i]);
    }
  }

  /** Whatever the paths, the tree keeps its keys in order. */
  lemma {:induction false} PutOrdered(es: seq<Entry>, path: Path, leaf: Value)
    requires KeysOrdered(es) && path != [] && leaf.Dict? && KeysOrdered(leaf.entries)
    ensures KeysOrdered(Put(es, path, leaf))
    decreases path
  {
    if |path| == 1 {
      InsertOrdered(es, path[0], leaf);
    } else {
      ChildOrdered(es, path[0]);
      PutOrdered(Child(es, path[0]), path[1..], leaf);
      InsertOrdered(es, path[0], Dict(Put(Child(es, path[0]), path[1..], leaf)));
    }
  }

  lemma {:induction false} LeafOrdered(length: nat, root: Hash)
    ensures LeafNode(length, root).Dict? && KeysOrdered(LeafNode(length, root).entries)
  {
    LeafEntriesOrdered(length, root);
    assert LeafNode(length, root).entries == [Entry("", Dict(LeafEntries(length, root)))];
    assert LeafNode(length, root).entries[1..] == [];
  }

  lemma {:induction false} BuiltTreeOrdered(h: Sha256, files: seq<CreateFile>, name: string, single: bool, size: nat, bpp: nat)
    requires AllReadable(files) && size > 0 && IsPow2(bpp) && Placed(files, single)
    ensures KeysOrdered(TreeOf(h, files, name, single, size, bpp))
  {
    hide EntryOf, KeysOrdered, Put, LeafNode;
    if files == [] {
      EmptyTree();
    } else {
      var n := |files| - 1;
      BuiltTreeOrdered(h, files[..n], name, single, size, bpp);
      var e := EntryOf(h, files[n], size, bpp);
      LeafOrdered(e.length, e.root);
      PutOrdered(TreeOf(h, files[..n], name, single, size, bpp), PathOf(files[n], name, single), LeafNode(e.length, e.root));
    }
  }

  lemma {:induction false} OnceEach(v2: seq<V2File>, f: V2File)
    requires Ascend(v2, [])
    ensures multiset(v2)[f] <= 1
  {
    if v2 != [] {
      var n := |v2| - 1;
      assert v2 == v2[..n] + [v2[n]];
      OnceEach(v2[..n], f);
      if v2[n] == f && f in v2[..n] {
        var i :| 0 <= i < n && v2[..n][i] == f;
        assert PathBefore(v2[i].path[0..], v2[n].path[0..]);
        BeforeIsApart(v2[i].path[0..], v2[n].path[0..]);
      }
    }
  }

  lemma {:induction false} Twice(fs: seq<V2File>, i: nat, j: nat)
    requires i < j < |fs| && fs[i] == fs[j]
    ensures multiset(fs)[fs[i]] >= 2
  {
    assert fs == fs[..j] + [fs[j]] + fs[j + 1..];
    assert fs[..j][i] in fs[..j];
  }

  /** Paths that come back are safe and apart. */
  lemma {:induction false} ListedPathsFit(h: Sha256, files: seq<CreateFile>, name: string, single: bool, size: nat, bpp: nat, v2: seq<V2File>)
    requires AllReadable(files) && size > 0 && IsPow2(bpp)
    requires Ascend(v2, []) && Lists(v2, Expected(h, files, name, single, size, bpp))
    ensures PathsFit(files, name, single)
  {
    hide EntryOf, ValidPath, Apart, PathBefore;
    var fs := Expected(h, files, name, single, size, bpp);
    forall i | 0 <= i < |files| ensures ValidPath(PathOf(files[i], name, single)) {
      var k := Listed(v2, fs, i);
    }
    forall i, j | 0 <= i < j < |files| ensures Apart(PathOf(files[i], name, single), PathOf(files[j], name, single)) {
      var k := Listed(v2, fs, i);
      var l := Listed(v2, fs, j);
      if k == l {
        Twice(fs, i, j);
        OnceEach(v2, fs[i]);
      }
      ListedApart(v2, k, l);
    }
  }

  lemma {:induction false} Listed(v2: seq<V2File>, fs: seq<V2File>, i: nat) returns (k: nat)
    requires Lists(v2, fs) && i < |fs|
    ensures k < |v2| && v2[k] == fs[i]
  {
    assert fs[i] in multiset(fs);
    assert fs[i] in multiset(v2);
    k :| 0 <= k < |v2| && v2[k] == fs[i];
  }

  lemma {:induction false} ListedApart(v2: seq<V2File>, k: nat, l: nat)
    requires Ascend(v2, []) && k < |v2| && l < |v2| && k != l
    ensures Apart(v2[k].path, v2[l].path)
  {
    var a, b := if k < l then k else l, if k < l then l else k;
    assert v2[a].path[0..] == v2[a].path && v2[b].path[0..] == v2[b].path;
    BeforeIsApart(v2[a].path, v2[b].path);
  }

  /** The parser finds exactly the files that were put in, if and only if their paths fit. */
  lemma {:induction false} FilesComeBackIff(h: Sha256, files: seq<CreateFile>, name: string, single: bool, size: nat, bpp: nat)
    requires IsSha256(h) && AllReadable(files) && size > 0 && IsPow2(bpp) && Placed(files, single) && files != []
    ensures var r := TreeFiles(Dict(TreeOf(h, files, name, single, size, bpp)));
            && (r.Ok? ==> Ascend(r.value, []))
            && (r.Ok? && Lists(r.value, Expected(h, files, name, single, size, bpp)) <==> PathsFit(files, name, single))
  {
    hide EntryOf, TreeOf, Expected, PathsFit, KeysOrdered, WalkAll, Ascend;
    var tree := TreeOf(h, files, name, single, size, bpp);
    var r := TreeFiles(Dict(tree));
    if r.Ok? {
      BuiltTreeOrdered(h, files, name, single, size, bpp);
      WalkAscends(tree, []);
      if Lists(r.value, Expected(h, files, name, single, size, bpp)) {
        ListedPathsFit(h, files, name, single, size, bpp, r.value);
      }
    }
    if PathsFit(files, name, single) {
      BuiltTreeWalks(h, files, name, single, size, bpp);
      NotEmpty(WalkAll(tree, []).value, Expected(h, files, name, single, size, bpp));
    }
  }

  lemma {:induction false} NotEmpty(v2: seq<V2File>, fs: seq<V2File>)
    requires Lists(v2, fs) && fs != []
    ensures v2 != []
  {
    var k := Listed(v2, fs, 0);
  }

  // ---------- paths that do not fit ----------

  /** A file, then one below it: the node of the first gets a second name, and the walk takes its leaf for a directory. */
  lemma {:induction false} FileThenBelow(p: string, q: string, n: nat, r: Hash, n': nat, r': Hash)
    requires p != "" && q != ""
    ensures TreeFiles(Dict(Put(Put([], [p], LeafNode(n, r)), [p, q], LeafNode(n', r')))) == Err(NotADictionary)
  {
    var first, second := LeafNode(n, r), LeafNode(n', r');
    var inner := first.entries;
    assert Put([], [p], first) == [Entry(p, first)];
    assert Child([Entry(p, first)], p) == inner;
    LessIsTotal(p, p);
    assert Less("", q) && !Less(q, "") && inner[1..] == [];
    var both := [inner[0], Entry(q, second)];
    assert Insert(inner, q, second) == both;
    var rest := [p, q][1..];
    assert rest == [q] && Put(inner, rest, second) == both;
    assert [Entry(p, first)][1..] == [];
    assert Put([Entry(p, first)], [p, q], second) == [Entry(p, Dict(both))];
    var leaf := inner[0].value.entries;
    assert "length"[0] != "pieces root"[0] && leaf[0].key == "length" != "";
    assert WalkAll(leaf, [] + [p] + [""]) == Err(NotADictionary);
    assert WalkAll(both, [] + [p]) == Err(NotADictionary);
    assert WalkAll([Entry(p, Dict(both))], []) == Err(NotADictionary);
  }

  /** The same two files the other way round: the second takes the place of the directory, and the first is lost. */
  lemma {:induction false} BelowThenFile(p: string, q: string, n: nat, r: Hash, n': nat, r': Hash)
    requires ValidSegment(p) && ValidSegment(q) && (if n' > 0 then Sized(r') else r' == ZERO_HASH)
    ensures TreeFiles(Dict(Put(Put([], [p, q], LeafNode(n, r)), [p], LeafNode(n', r')))) == Ok([V2File([p], n', r')])
  {
    hide ValidSegment, FileAt;
    var first, second := LeafNode(n, r), LeafNode(n', r');
    var below := Put([], [p, q][1..], first);
    LessIsTotal(p, p);
    assert Put([], [p, q], first) == [Entry(p, Dict(below))];
    assert [Entry(p, Dict(below))][1..] == [];
    var tree := [Entry(p, second)];
    assert Put([Entry(p, Dict(below))], [p], second) == tree;
    assert p != "" by { assert ValidSegment(p); NamesAreNotEmpty(p); }
    LeafReads(n', r', [p]);
    assert [] + [p] == [p] && tree[1..] == [];
    assert Walk(second.entries, [p]) == Ok([V2File([p], n', r')]);
    assert WalkAll([], []) == Ok([]);
    assert WalkAll(tree, []) == Ok([V2File([p], n', r')] + []);
    assert [V2File([p], n', r')] + [] == [V2File([p], n', r')];
  }

  lemma {:induction false} NamesAreNotEmpty(p: string)
    requires ValidSegment(p)
    ensures p != ""
  {
  }
}
