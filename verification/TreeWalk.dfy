/** What the walk over a file tree gives, and that it gives back what the builder put in. */
module TreeWalk {
  import opened Bytes
  import opened Bencode
  import opened Geometry
  import opened Paths
  import opened FileTree

  // ---------- the order of paths ----------

  /** At the first name in which they differ, a has the smaller one; so neither continues the other. */
  predicate PathBefore(a: Path, b: Path) {
    a != [] && b != [] && (Less(a[0], b[0]) || (a[0] == b[0] && PathBefore(a[1..], b[1..])))
  }

  lemma {:induction false} BeforeIsApart(a: Path, b: Path)
    requires PathBefore(a, b)
    ensures !PathBefore(b, a) && Apart(a, b) && a != b
  {
    LessIsTotal(a[0], b[0]);
    if a[0] == b[0] {
      BeforeIsApart(a[1..], b[1..]);
    }
  }

  /** Below a prefix, all paths are valid and ascending. */
  ghost predicate Ascend(files: seq<V2File>, prefix: Path) {
    && (forall i :: 0 <= i < |files| ==> prefix <= files[i].path && ValidPath(files[i].path))
    && (forall i, j :: 0 <= i < j < |files| ==> PathBefore(files[i].path[|prefix|..], files[j].path[|prefix|..]))
  }

  /** The name right below the prefix is this one or a greater one. */
  ghost predicate From(files: seq<V2File>, prefix: Path, key: string) {
    forall i :: 0 <= i < |files| ==> NameFrom(files[i].path, prefix, key)
  }

  predicate NameFrom(path: Path, prefix: Path, key: string) {
    prefix <= path && |prefix| < |path| && (path[|prefix|] == key || Less(key, path[|prefix|]))
  }

  /** Keys in order at every level. */
  predicate KeysOrdered(es: seq<Entry>)
    decreases es, 1
  {
    Ascending(es) && ChildrenOrdered(es)
  }

  predicate ChildrenOrdered(es: seq<Entry>)
    decreases es, 0
  {
    es != [] ==> (es[0].value.Dict? ==> KeysOrdered(es[0].value.entries)) && ChildrenOrdered(es[1..])
  }

  lemma {:induction false} TailOrdered(es: seq<Entry>)
    requires es != [] && KeysOrdered(es)
    ensures KeysOrdered(es[1..]) && (es[0].value.Dict? ==> KeysOrdered(es[0].value.entries))
    ensures |es| > 1 ==> Less(es[0].key, es[1].key)
  {
  }

  lemma {:induction false} SlideDown(path: Path, prefix: Path, key: string)
    requires prefix + [key] <= path
    ensures path[|prefix|..] == [key] + path[|prefix| + 1..] && prefix <= path && NameFrom(path, prefix, key)
  {
    assert path[..|prefix| + 1] == prefix + [key];
    assert path[|prefix|] == key;
    assert path[..|prefix|] == prefix;
  }

  /** What a walk lists is valid, ascending, and no path continues another. */
  lemma {:induction false} WalkAscends(es: seq<Entry>, prefix: Path)
    requires KeysOrdered(es) && Walk(es, prefix).Ok?
    ensures Ascend(Walk(es, prefix).value, prefix)
    decreases es, 1
  {
    if !IsLeaf(es) {
      WalkAllAscends(es, prefix);
    }
  }

  lemma {:induction false} WalkAllAscends(es: seq<Entry>, prefix: Path)
    requires KeysOrdered(es) && WalkAll(es, prefix).Ok?
    ensures Ascend(WalkAll(es, prefix).value, prefix)
    ensures es != [] ==> From(WalkAll(es, prefix).value, prefix, es[0].key)
    decreases es, 0
  {
    if es != [] {
      TailOrdered(es);
      var key := es[0].key;
      var first, rest := Walk(es[0].value.entries, prefix + [key]).value, WalkAll(es[1..], prefix).value;
      WalkAscends(es[0].value.entries, prefix + [key]);
      WalkAllAscends(es[1..], prefix);
      Joined(first, rest, prefix, key, if |es| > 1 then es[1].key else key);
      hide Walk, Ascend, From;
    }
  }

  /** Every file listed has a safe path and, unless it is empty, a root of 32 bytes, in whatever order the tree is. */
  ghost predicate Listable(files: seq<V2File>) {
    forall i :: 0 <= i < |files| ==>
      ValidPath(files[i].path) && (if files[i].length > 0 then |files[i].root.bytes| == 32 else files[i].root == Hash(seq(32, k => 0)))
  }

  lemma {:induction false} WalkIsListable(es: seq<Entry>, prefix: Path)
    requires Walk(es, prefix).Ok?
    ensures Listable(Walk(es, prefix).value)
    decreases es, 1
  {
    hide ValidPath;
    if !IsLeaf(es) {
      WalkAllIsListable(es, prefix);
    }
  }

  lemma {:induction false} WalkAllIsListable(es: seq<Entry>, prefix: Path)
    requires WalkAll(es, prefix).Ok?
    ensures Listable(WalkAll(es, prefix).value)
    decreases es, 0
  {
    hide ValidPath;
    if es != [] {
      WalkIsListable(es[0].value.entries, prefix + [es[0].key]);
      WalkAllIsListable(es[1..], prefix);
    }
  }

  lemma {:induction false} Joined(first: seq<V2File>, rest: seq<V2File>, prefix: Path, key: string, next: string)
    requires Ascend(first, prefix + [key]) && Ascend(rest, prefix) && (rest != [] ==> Less(key, next) && From(rest, prefix, next))
    ensures Ascend(first + rest, prefix) && From(first + rest, prefix, key)
  {
    var all := first + rest;
    forall i | 0 <= i < |all| ensures prefix <= all[i].path && ValidPath(all[i].path) && NameFrom(all[i].path, prefix, key) {
      if i < |first| {
        SlideDown(all[i].path, prefix, key);
      } else {
        Later(all[i].path, prefix, key, next);
      }
    }
    forall i, j | 0 <= i < j < |all| ensures PathBefore(all[i].path[|prefix|..], all[j].path[|prefix|..]) {
      if i < |first| {
        SlideDown(all[i].path, prefix, key);
      }
      if j < |first| {
        SlideDown(all[j].path, prefix, key);
        assert all[i].path[|prefix| + 1..] == first[i].path[|prefix + [key]|..];
      } else {
        Later(all[j].path, prefix, key, next);
        assert i >= |first| ==> all[i] == rest[i - |first|];
        assert all[j] == rest[j - |first|];
      }
    }
  }

  lemma {:induction false} Later(path: Path, prefix: Path, key: string, next: string)
    requires NameFrom(path, prefix, next) && Less(key, next)
    ensures Less(key, path[|prefix|]) && NameFrom(path, prefix, key)
  {
    if path[|prefix|] != next {
      LessIsTransitive(key, next, path[|prefix|]);
    }
  }

  // ---------- putting a file in ----------

  /** The files below a key. */
  function Under(es: seq<Entry>, prefix: Path, key: string): (files: seq<V2File>) {
    match Find(es, key)
    case Some(Dict(kids)) => (match Walk(kids, prefix + [key]) case Ok(files) => files case Err(_) => [])
    case _ => []
  }

  /** Assigning a key replaces the files below it, and leaves the others where they were. */
  lemma {:induction false} InsertWalk(es: seq<Entry>, prefix: Path, key: string, kids: seq<Entry>) returns (a: seq<V2File>, b: seq<V2File>)
    requires KeysOrdered(es) && WalkAll(es, prefix).Ok? && Walk(kids, prefix + [key]).Ok?
    ensures WalkAll(es, prefix) == Ok(a + Under(es, prefix, key) + b)
    ensures WalkAll(Insert(es, key, Dict(kids)), prefix) == Ok(a + Walk(kids, prefix + [key]).value + b)
  {
    hide Walk, WalkAll, Insert, Find, KeysOrdered;
    if es == [] || Less(key, es[0].key) {
      a, b := [], WalkAll(es, prefix).value;
      InsertedFirst(es, prefix, key, kids);
      AroundNothing(Walk(kids, prefix + [key]).value, b);
    } else if es[0].key == key {
      LessIsTotal(key, key);
      InsertedInPlace(es, prefix, key, kids);
      a, b := [], WalkAll(es[1..], prefix).value;
      AroundNothing(Under(es, prefix, key), b);
      AroundNothing(Walk(kids, prefix + [key]).value, b);
    } else {
      TailOrdered(es);
      InsertedLater(es, prefix, key, kids);
      var c;
      c, b := InsertWalk(es[1..], prefix, key, kids);
      var first := Walk(es[0].value.entries, prefix + [es[0].key]).value;
      a := first + c;
      Regrouped(first, c, Under(es, prefix, key), b);
      Regrouped(first, c, Walk(kids, prefix + [key]).value, b);
    }
  }

  lemma {:induction false} AroundNothing(x: seq<V2File>, b: seq<V2File>)
    ensures [] + x + b == x + b && [] + [] + b == b
  {
  }

  lemma {:induction false} Regrouped(first: seq<V2File>, c: seq<V2File>, x: seq<V2File>, b: seq<V2File>)
    ensures first + (c + x + b) == first + c + x + b
  {
  }

  lemma {:induction false} InsertedFirst(es: seq<Entry>, prefix: Path, key: string, kids: seq<Entry>)
    requires KeysOrdered(es) && (es == [] || Less(key, es[0].key)) && WalkAll(es, prefix).Ok? && Walk(kids, prefix + [key]).Ok?
    ensures Under(es, prefix, key) == []
    ensures WalkAll(Insert(es, key, Dict(kids)), prefix) == Ok(Walk(kids, prefix + [key]).value + WalkAll(es, prefix).value)
  {
    hide Walk, Less;
    AbsentBelow(es, key);
    assert Insert(es, key, Dict(kids))[1..] == es;
  }

  lemma {:induction false} InsertedInPlace(es: seq<Entry>, prefix: Path, key: string, kids: seq<Entry>)
    requires es != [] && es[0].key == key && !Less(key, es[0].key) && WalkAll(es, prefix).Ok? && Walk(kids, prefix + [key]).Ok?
    ensures WalkAll(es[1..], prefix).Ok? && WalkAll(es, prefix) == Ok(Under(es, prefix, key) + WalkAll(es[1..], prefix).value)
    ensures WalkAll(Insert(es, key, Dict(kids)), prefix) == Ok(Walk(kids, prefix + [key]).value + WalkAll(es[1..], prefix).value)
  {
    hide Walk, Less;
    assert Insert(es, key, Dict(kids))[1..] == es[1..];
  }

  lemma {:induction false} InsertedLater(es: seq<Entry>, prefix: Path, key: string, kids: seq<Entry>)
    requires es != [] && es[0].key != key && !Less(key, es[0].key) && WalkAll(es, prefix).Ok?
    ensures es[0].value.Dict? && Walk(es[0].value.entries, prefix + [es[0].key]).Ok? && WalkAll(es[1..], prefix).Ok?
    ensures Under(es, prefix, key) == Under(es[1..], prefix, key)
    ensures var first := Walk(es[0].value.entries, prefix + [es[0].key]).value; var after := WalkAll(Insert(es[1..], key, Dict(kids)), prefix);
            && WalkAll(es, prefix) == Ok(first + WalkAll(es[1..], prefix).value)
            && (after.Ok? ==> WalkAll(Insert(es, key, Dict(kids)), prefix) == Ok(first + after.value))
  {
    hide Walk, Less;
    assert Insert(es, key, Dict(kids))[1..] == Insert(es[1..], key, Dict(kids));
  }

  /** A key smaller than the first is not there. */
  lemma {:induction false} AbsentBelow(es: seq<Entry>, key: string)
    requires KeysOrdered(es) && (es != [] ==> Less(key, es[0].key))
    ensures Find(es, key) == None
  {
    if es != [] {
      TailOrdered(es);
      LessIsTotal(key, es[0].key);
      if |es| > 1 {
        LessIsTransitive(key, es[0].key, es[1].key);
      }
      AbsentBelow(es[1..], key);
    }
  }

  lemma {:induction false} InsertOrdered(es: seq<Entry>, key: string, v: Value)
    requires KeysOrdered(es) && (v.Dict? ==> KeysOrdered(v.entries))
    ensures KeysOrdered(Insert(es, key, v)) && Insert(es, key, v) != []
    ensures !IsLeaf(es) && key != "" ==> !IsLeaf(Insert(es, key, v))
  {
    InsertKeepsOrder(es, key, v);
    ChildrenStayOrdered(es, key, v);
    InsertedKey(es, key, v);
  }

  lemma {:induction false} ChildrenStayOrdered(es: seq<Entry>, key: string, v: Value)
    requires ChildrenOrdered(es) && (v.Dict? ==> KeysOrdered(v.entries))
    ensures ChildrenOrdered(Insert(es, key, v))
  {
    var out := Insert(es, key, v);
    if es == [] || Less(key, es[0].key) {
      assert out[1..] == es;
    } else if es[0].key == key {
      assert out[1..] == es[1..];
    } else {
      ChildrenStayOrdered(es[1..], key, v);
      assert out[1..] == Insert(es[1..], key, v);
    }
  }

  lemma {:induction false} InsertedKey(es: seq<Entry>, key: string, v: Value)
    ensures |es| <= |Insert(es, key, v)| && Insert(es, key, v) != [] && (|Insert(es, key, v)| == 1 ==> Insert(es, key, v)[0].key == key)
  {
    if es != [] && es[0].key != key && !Less(key, es[0].key) {
      InsertedKey(es[1..], key, v);
    }
  }

  lemma {:induction false} ChildOrdered(es: seq<Entry>, key: string)
    requires KeysOrdered(es)
    ensures KeysOrdered(Child(es, key))
  {
    if es != [] && es[0].key != key {
      ChildOrdered(es[1..], key);
    }
  }

  /** What is below a key of a walkable node is walkable, and its files begin with that key. */
  lemma {:induction false} UnderWalks(es: seq<Entry>, prefix: Path, key: string)
    requires KeysOrdered(es) && WalkAll(es, prefix).Ok?
    ensures Find(es, key).Some? ==> Find(es, key).value.Dict? && Walk(Child(es, key), prefix + [key]) == Ok(Under(es, prefix, key))
    ensures forall g :: g in Under(es, prefix, key) ==> prefix + [key] <= g.path
  {
    hide Walk;
    if es != [] {
      TailOrdered(es);
      if es[0].key == key {
        WalkAscends(es[0].value.entries, prefix + [key]);
      } else {
        UnderWalks(es[1..], prefix, key);
      }
    }
  }

  /** No listed file continues the path, and the path continues none. */
  ghost predicate Free(files: seq<V2File>, path: Path) {
    forall g :: g in files ==> Apart(g.path, path)
  }

  /** A file put in at a free path is listed there, and the other files stay as they are. */
  lemma {:induction false} PutWalk(es: seq<Entry>, prefix: Path, path: Path, inner: Value, f: V2File) returns (k: nat)
    requires KeysOrdered(es) && !IsLeaf(es) && WalkAll(es, prefix).Ok? && path != [] && "" !in path
    requires Free(WalkAll(es, prefix).value, prefix + path)
    requires FileAt(inner, prefix + path) == Ok(f) && inner.Dict? && KeysOrdered(inner.entries)
    ensures var leaf := Dict([Entry("", inner)]); var files := WalkAll(es, prefix).value;
            && KeysOrdered(Put(es, path, leaf)) && !IsLeaf(Put(es, path, leaf))
            && k <= |files| && WalkAll(Put(es, path, leaf), prefix) == Ok(files[..k] + [f] + files[k..])
    decreases path
  {
    hide Walk, Insert, FileAt, KeysOrdered, Ascending, Free;
    var leaf := Dict([Entry("", inner)]);
    var key := path[0];
    var was := Under(es, prefix, key);
    var kids: seq<Entry>;
    ChildOrdered(es, key);
    if |path| == 1 {
      assert path == [key];
      kids := leaf.entries;
      LeafWalks(inner, prefix + path);
      NothingAt(es, prefix, key, path);
      assert [f] == was[..0] + [f] + was[0..];
      k := 0;
    } else {
      DirectoryAt(es, prefix, key, path);
      assert prefix + [key] + path[1..] == prefix + path;
      WalkOfDirectory(Child(es, key), prefix + [key]);
      k := PutWalk(Child(es, key), prefix + [key], path[1..], inner, f);
      kids := Put(Child(es, key), path[1..], leaf);
      WalkOfDirectory(kids, prefix + [key]);
    }
    InsertOrdered(es, key, Dict(kids));
    var a, b := InsertWalk(es, prefix, key, kids);
    Middle(a, was, b, k, f);
    k := |a| + k;
  }

  lemma {:induction false} WalkOfDirectory(es: seq<Entry>, prefix: Path)
    requires !IsLeaf(es)
    ensures Walk(es, prefix) == WalkAll(es, prefix)
  {
  }

  lemma {:induction false} LeafWalks(inner: Value, path: Path)
    requires inner.Dict? && KeysOrdered(inner.entries) && FileAt(inner, path).Ok?
    ensures KeysOrdered([Entry("", inner)]) && Walk([Entry("", inner)], path) == Ok([FileAt(inner, path).value])
  {
    assert [Entry("", inner)][1..] == [];
  }

  lemma {:induction false} Middle(a: seq<V2File>, was: seq<V2File>, b: seq<V2File>, k: nat, f: V2File)
    requires k <= |was|
    ensures var files := a + was + b;
            a + (was[..k] + [f] + was[k..]) + b == files[..|a| + k] + [f] + files[|a| + k..]
  {
    assert a + was + b == (a + was[..k]) + (was[k..] + b) by {
      assert was == was[..k] + was[k..];
    }
  }

  lemma {:induction false} UnderIsPart(es: seq<Entry>, prefix: Path, key: string)
    requires KeysOrdered(es) && WalkAll(es, prefix).Ok?
    ensures forall g :: g in Under(es, prefix, key) ==> g in WalkAll(es, prefix).value
  {
    hide Walk;
    if es != [] && es[0].key != key {
      TailOrdered(es);
      UnderIsPart(es[1..], prefix, key);
    }
  }

  /** At the last name of a free path there are no files. */
  lemma {:induction false} NothingAt(es: seq<Entry>, prefix: Path, key: string, path: Path)
    requires KeysOrdered(es) && WalkAll(es, prefix).Ok? && path == [key] && Free(WalkAll(es, prefix).value, prefix + path)
    ensures Under(es, prefix, key) == []
  {
    hide Free, WalkAll, Find, Walk;
    UnderWalks(es, prefix, key);
    UnderIsPart(es, prefix, key);
    FreeIsEmpty(Under(es, prefix, key), WalkAll(es, prefix).value, prefix + path);
  }

  lemma {:induction false} FreeIsEmpty(part: seq<V2File>, files: seq<V2File>, path: Path)
    requires Free(files, path) && forall g :: g in part ==> g in files && path <= g.path
    ensures part == []
  {
    HasFirst(part);
  }

  lemma {:induction false} HasFirst(part: seq<V2File>)
    ensures part != [] ==> part[0] in part
  {
  }

  /** On the way down a free path there is a directory or nothing. */
  lemma {:induction false} DirectoryAt(es: seq<Entry>, prefix: Path, key: string, path: Path)
    requires KeysOrdered(es) && WalkAll(es, prefix).Ok? && |path| > 1 && path[0] == key && Free(WalkAll(es, prefix).value, prefix + path)
    ensures !IsLeaf(Child(es, key)) && Walk(Child(es, key), prefix + [key]) == Ok(Under(es, prefix, key))
    ensures Free(Under(es, prefix, key), prefix + path)
  {
    UnderWalks(es, prefix, key);
    UnderIsPart(es, prefix, key);
    var under := Under(es, prefix, key);
    assert (prefix + path)[..|prefix| + 1] == prefix + [key];
    assert under != [] ==> under[0] in under;
  }
}
