/** The nested "file tree" of BEP 52: how the builder fills it and how the parser walks it. */
module FileTree {
  import opened Bytes
  import opened Bencode
  import opened Geometry
  import opened Paths

  datatype TreeError = NotADictionary | RootIsFile | BadLeaf | NegativeLength | BadRoot | UnsafePath | NoFiles

  // ---------- bytes as the characters of a string ----------

  function CharOf(b: byte): (c: char) {
    (b as int) as char
  }

  function ByteOf(c: char): (b: byte) {
    (c as int % 256) as byte
  }

  lemma {:induction false} ByteOfChar(b: byte)
    ensures ByteOf(CharOf(b)) == b
  {
    var n := b as int;
    assert CharOf(b) as int == n;
    assert n % 256 == n;
  }

  function Chars(bytes: seq<byte>): (s: string)
    ensures |s| == |bytes|
  {
    seq(|bytes|, i requires 0 <= i < |bytes| => CharOf(bytes[i]))
  }

  function BytesIn(s: string): (bytes: seq<byte>)
    ensures |bytes| == |s|
  {
    seq(|s|, i requires 0 <= i < |s| => ByteOf(s[i]))
  }

  lemma {:induction false} BytesInChars(bytes: seq<byte>)
    ensures BytesIn(Chars(bytes)) == bytes
  {
    hide ByteOf, CharOf;
    forall i | 0 <= i < |bytes| ensures BytesIn(Chars(bytes))[i] == bytes[i] {
      ByteOfChar(bytes[i]);
    }
  }

  // ---------- writing: setFileTreeEntry ----------

  function Find(es: seq<Entry>, key: string): (v: Option<Value>) {
    if es == [] then None else if es[0].key == key then Some(es[0].value) else Find(es[1..], key)
  }

  /** The {"": {length, pieces root}} node of a file. */
  function LeafNode(length: int, root: Hash): (v: Value) {
    Dict([Entry("", Dict([Entry("length", Int(length))] + if length > 0 then [Entry("pieces root", Str(Chars(root.bytes)))] else []))])
  }

  /** The directory at a key, or a new one in place of what is there. */
  function Child(es: seq<Entry>, key: string): (kids: seq<Entry>) {
    match Find(es, key)
    case Some(Dict(kids)) => kids
    case _ => []
  }

  function Put(es: seq<Entry>, path: Path, leaf: Value): (es': seq<Entry>)
    requires path != []
    decreases path
  {
    if |path| == 1 then Insert(es, path[0], leaf)
    else Insert(es, path[0], Dict(Put(Child(es, path[0]), path[1..], leaf)))
  }

  // ---------- reading: walkFileTree ----------

  /** A node with the one key "" describes a file. */
  predicate IsLeaf(es: seq<Entry>) {
    |es| == 1 && es[0].key == ""
  }

  /** What decoding into a byte slice takes: a string, or a list of small numbers. */
  function ByteSlice(v: Value): (bytes: Option<seq<byte>>) {
    match v
    case Str(s) => Some(BytesIn(s))
    case List(items) => ByteItems(items)
    case _ => None
  }

  function ByteItems(items: seq<Value>): (bytes: Option<seq<byte>>) {
    if items == [] then Some([])
    else if !(items[0].Int? && 0 <= items[0].n < 256) then None
    else
      match ByteItems(items[1..])
      case None => None
      case Some(rest) => Some([items[0].n as byte] + rest)
  }

  function LeafLength(es: seq<Entry>): (n: Option<int>) {
    match Find(es, "length")
    case None => Some(0)
    case Some(Int(n)) => Some(n)
    case _ => None
  }

  function LeafRoot(es: seq<Entry>): (bytes: Option<seq<byte>>) {
    match Find(es, "pieces root")
    case None => Some([])
    case Some(v) => ByteSlice(v)
  }

  /** The file that a leaf describes. */
  function FileAt(v: Value, path: Path): (r: Result<V2File, TreeError>) {
    if !v.Dict? then Err(BadLeaf)
    else
      match (LeafLength(v.entries), LeafRoot(v.entries))
      case (Some(n), Some(root)) =>
        if n < 0 then Err(NegativeLength)
        else if (if n > 0 then |root| != DIGEST_SIZE else root != []) then Err(BadRoot)
        else if !ValidPath(path) then Err(UnsafePath)
        else Ok(V2File(path, n, if n > 0 then Hash(root) else ZERO_HASH))
      case _ => Err(BadLeaf)
  }

  /** The files below a node, directories in order of their keys. */
  function Walk(es: seq<Entry>, prefix: Path): (r: Result<seq<V2File>, TreeError>)
    decreases es, 1
  {
    if IsLeaf(es) then
      match FileAt(es[0].value, prefix)
      case Err(e) => Err(e)
      case Ok(f) => Ok([f])
    else WalkAll(es, prefix)
  }

  function WalkAll(es: seq<Entry>, prefix: Path): (r: Result<seq<V2File>, TreeError>)
    decreases es, 0
  {
    if es == [] then Ok([])
    else
      match es[0].value
      case Dict(kids) =>
        (match Walk(kids, prefix + [es[0].key])
         case Err(e) => Err(e)
         case Ok(first) =>
           match WalkAll(es[1..], prefix)
           case Err(e) => Err(e)
           case Ok(rest) => Ok(first + rest))
      case _ => Err(NotADictionary)
  }

  function TreeFiles(tree: Value): (r: Result<seq<V2File>, TreeError>) {
    if !tree.Dict? then Err(NotADictionary)
    else if IsLeaf(tree.entries) then Err(RootIsFile)
    else
      match Walk(tree.entries, [])
      case Err(e) => Err(e)
      case Ok(files) => if files == [] then Err(NoFiles) else Ok(files)
  }

  /** walkFileTree, appending to what was found before. A dictionary's entries are in order of their keys already. */
  method WalkFileTree(node: seq<Entry>, prefix: Path, found: seq<V2File>) returns (r: Result<seq<V2File>, TreeError>)
    ensures r == After(found, Walk(node, prefix))
    decreases node
  {
    hide WalkAll;
    if |node| == 1 && node[0].key == "" {
      var f := LeafFile(node[0].value, prefix);
      match f {
        case Err(e) => return Err(e);
        case Ok(file) => return Ok(found + [file]);
      }
    }
    var out := found;
    ghost var done: seq<V2File> := [];
    AfterNothing(WalkAll(node, prefix));
    for i := 0 to |node|
      invariant out == found + done && WalkAll(node, prefix) == After(done, WalkAll(node[i..], prefix))
    {
      WalkStep(node, prefix, i, found, done);
      var child := node[i].value;
      if !child.Dict? {
        return Err(NotADictionary);
      }
      var below := WalkFileTree(child.entries, prefix + [node[i].key], out);
      if below.Err? {
        return below;
      }
      out := below.value;
      done := done + Walk(child.entries, prefix + [node[i].key]).value;
    }
    WalkedAll(node, prefix, done);
    r := Ok(out);
  }

  /** What was found before comes first. */
  function After(found: seq<V2File>, r: Result<seq<V2File>, TreeError>): (r': Result<seq<V2File>, TreeError>) {
    match r
    case Err(e) => Err(e)
    case Ok(files) => Ok(found + files)
  }

  lemma {:induction false} AfterNothing(r: Result<seq<V2File>, TreeError>)
    ensures After([], r) == r
  {
    if r.Ok? {
      assert [] + r.value == r.value;
    }
  }

  lemma {:induction false} WalkStep(node: seq<Entry>, prefix: Path, i: nat, found: seq<V2File>, done: seq<V2File>)
    requires i < |node| && WalkAll(node, prefix) == After(done, WalkAll(node[i..], prefix))
    ensures match node[i].value
            case Dict(kids) =>
              (match Walk(kids, prefix + [node[i].key])
               case Err(e) => WalkAll(node, prefix) == Err(e)
               case Ok(first) =>
                 WalkAll(node, prefix) == After(done + first, WalkAll(node[i + 1..], prefix)) && found + (done + first) == found + done + first)
            case _ => WalkAll(node, prefix) == Err(NotADictionary)
  {
    hide Walk;
    assert node[i..][0] == node[i] && node[i..][1..] == node[i + 1..];
    match node[i].value {
      case Dict(kids) =>
        var rest := WalkAll(node[i + 1..], prefix);
        var first := Walk(kids, prefix + [node[i].key]);
        if first.Ok? && rest.Ok? {
          assert done + (first.value + rest.value) == done + first.value + rest.value;
        }
      case _ =>
    }
  }

  lemma {:induction false} WalkedAll(node: seq<Entry>, prefix: Path, done: seq<V2File>)
    ensures After(done, WalkAll(node[|node|..], prefix)) == Ok(done)
  {
    assert node[|node|..] == [] && done + [] == done;
  }

  /** The leaf case of walkFileTree. */
  method LeafFile(v: Value, path: Path) returns (r: Result<V2File, TreeError>)
    ensures r == FileAt(v, path)
  {
    if !v.Dict? {
      return Err(BadLeaf);
    }
    var length, root := LeafLength(v.entries), LeafRoot(v.entries);
    if length.None? || root.None? {
      return Err(BadLeaf);
    }
    if length.value < 0 {
      return Err(NegativeLength);
    }
    var digest := ZERO_HASH;
    if length.value > 0 {
      if |root.value| != DIGEST_SIZE {
        return Err(BadRoot);
      }
      digest := Hash(root.value);
    } else if |root.value| != 0 {
      return Err(BadRoot);
    }
    var valid := ValidatePath(path);
    if !valid {
      return Err(UnsafePath);
    }
    r := Ok(V2File(path, length.value, digest));
  }

  /** parseFileTree. */
  method ParseFileTree(tree: Value) returns (r: Result<seq<V2File>, TreeError>)
    ensures r == TreeFiles(tree)
  {
    if !tree.Dict? {
      return Err(NotADictionary);
    }
    if |tree.entries| == 1 && tree.entries[0].key == "" {
      return Err(RootIsFile);
    }
    r := WalkFileTree(tree.entries, [], []);
    AfterNothing(Walk(tree.entries, []));
    hide Walk;
    if r.Ok? && |r.value| == 0 {
      return Err(NoFiles);
    }
  }
}
