/** Paths inside a torrent and which of them are safe: internal/metainfo/path.go. A string is its bytes. */
module Paths {
  type Path = seq<string>

  const MAX_SEGMENT := 255
  const MAX_PATH_DEPTH := 32

  const RESERVED: set<string> := {
    "CON", "PRN", "AUX", "NUL",
    "COM0", "COM1", "COM2", "COM3", "COM4", "COM5", "COM6", "COM7", "COM8", "COM9",
    "LPT0", "LPT1", "LPT2", "LPT3", "LPT4", "LPT5", "LPT6", "LPT7", "LPT8", "LPT9"
  }

  /** Separators, drive letters and control characters. */
  predicate Forbidden(c: char) {
    c == '/' || c == '\\' || c == ':' || c < ' ' || c as int == 0x7f
  }

  function Upper(s: string): (t: string)
    ensures |t| == |s|
  {
    if s == "" then "" else [if 'a' <= s[0] <= 'z' then s[0] - 'a' + 'A' else s[0]] + Upper(s[1..])
  }

  /** The part in front of the first dot. */
  function Base(s: string): (t: string) {
    if s == "" || s[0] == '.' then "" else [s[0]] + Base(s[1..])
  }

  predicate ValidSegment(seg: string) {
    && seg != "" && seg != "." && seg != ".." && |seg| <= MAX_SEGMENT
    && (forall i :: 0 <= i < |seg| ==> !Forbidden(seg[i]))
    && seg[|seg| - 1] != '.' && seg[|seg| - 1] != ' '
    && Upper(Base(seg)) !in RESERVED
  }

  predicate ValidPath(path: Path) {
    0 < |path| <= MAX_PATH_DEPTH && forall i :: 0 <= i < |path| ==> ValidSegment(path[i])
  }

  /** ValidatePathSegment. */
  method ValidatePathSegment(seg: string) returns (ok: bool)
    ensures ok <==> ValidSegment(seg)
  {
    hide Upper;
    if seg == "" || seg == "." || seg == ".." || |seg| > MAX_SEGMENT {
      return false;
    }
    for i := 0 to |seg|
      invariant forall j :: 0 <= j < i ==> !Forbidden(seg[j])
    {
      if Forbidden(seg[i]) {
        return false;
      }
    }
    var last := seg[|seg| - 1];
    if last == '.' || last == ' ' {
      return false;
    }
    var dot := 0;
    while dot < |seg| && seg[dot] != '.'
      invariant 0 <= dot <= |seg| && forall j :: 0 <= j < dot ==> seg[j] != '.'
    {
      dot := dot + 1;
    }
    BaseIsPrefix(seg, dot);
    ok := Upper(seg[..dot]) !in RESERVED;
  }

  lemma {:induction false} BaseIsPrefix(s: string, dot: nat)
    requires dot <= |s| && (dot < |s| ==> s[dot] == '.') && forall j :: 0 <= j < dot ==> s[j] != '.'
    ensures Base(s) == s[..dot]
  {
    if dot > 0 {
      BaseIsPrefix(s[1..], dot - 1);
      assert s[..dot] == [s[0]] + s[1..][..dot - 1];
    }
  }

  /** ValidatePath. */
  method ValidatePath(path: Path) returns (ok: bool)
    ensures ok <==> ValidPath(path)
  {
    hide ValidSegment;
    if |path| == 0 || |path| > MAX_PATH_DEPTH {
      return false;
    }
    for i := 0 to |path|
      invariant forall j :: 0 <= j < i ==> ValidSegment(path[j])
    {
      var valid := ValidatePathSegment(path[i]);
      if !valid {
        return false;
      }
    }
    ok := true;
  }

  /** Neither path continues the other. */
  predicate Apart(a: Path, b: Path) {
    !(a <= b) && !(b <= a)
  }

  // ---------- what is safe about a path ----------

  /** A path as the file system is given it. */
  function Slashed(path: Path): (s: string) {
    if path == [] then "" else if |path| == 1 then path[0] else path[0] + "/" + Slashed(path[1..])
  }

  /** How a file system takes a path apart, with either kind of separator. */
  function Split(s: string): (path: Path)
    ensures |path| > 0
  {
    if s == "" then [""]
    else
      var rest := Split(s[1..]);
      if s[0] == '/' || s[0] == '\\' then [""] + rest else [[s[0]] + rest[0]] + rest[1..]
  }

  /** Where a path leads from a directory; nowhere if it climbs out of the root. */
  function Resolved(at: Path, path: Path): (place: seq<Path>)
    decreases |path|
  {
    if path == [] then [at]
    else if path[0] == "" || path[0] == "." then Resolved(at, path[1..])
    else if path[0] == ".." then if at == [] then [] else Resolved(at[..|at| - 1], path[1..])
    else Resolved(at + [path[0]], path[1..])
  }

  lemma {:induction false} SplitFirst(seg: string, rest: string)
    requires forall i :: 0 <= i < |seg| ==> seg[i] != '/' && seg[i] != '\\'
    ensures Split(seg) == [seg] && Split(seg + "/" + rest) == [seg] + Split(rest)
  {
    if seg == "" {
      assert (seg + "/" + rest)[1..] == rest;
    } else {
      SplitFirst(seg[1..], rest);
      assert (seg + "/" + rest)[1..] == seg[1..] + "/" + rest;
      assert [seg[0]] + seg[1..] == seg;
    }
  }

  /** A safe name is one name to any file system, and no device's. */
  lemma {:induction false} NamesAreSafe(seg: string)
    requires ValidSegment(seg)
    ensures 0 < |seg| <= 255 && seg != "." && seg != ".." && seg[|seg| - 1] != '.' && seg[|seg| - 1] != ' '
    ensures forall i :: 0 <= i < |seg| ==> seg[i] != '/' && seg[i] != '\\' && seg[i] != ':' && 0x20 <= seg[i] as int != 0x7f
    ensures Upper(Base(seg)) != "CON" && Upper(Base(seg)) != "PRN" && Upper(Base(seg)) != "AUX" && Upper(Base(seg)) != "NUL"
    ensures forall d :: '0' <= d <= '9' ==> Upper(Base(seg)) != "COM" + [d] && Upper(Base(seg)) != "LPT" + [d]
  {
    hide Upper, Base;
    forall d | '0' <= d <= '9' ensures "COM" + [d] in RESERVED && "LPT" + [d] in RESERVED {
      assert "COM" + ['0'] == "COM0" && "LPT" + ['0'] == "LPT0";
      assert "COM" + ['1'] == "COM1" && "LPT" + ['1'] == "LPT1";
      assert "COM" + ['2'] == "COM2" && "LPT" + ['2'] == "LPT2";
      assert "COM" + ['3'] == "COM3" && "LPT" + ['3'] == "LPT3";
      assert "COM" + ['4'] == "COM4" && "LPT" + ['4'] == "LPT4";
      assert "COM" + ['5'] == "COM5" && "LPT" + ['5'] == "LPT5";
      assert "COM" + ['6'] == "COM6" && "LPT" + ['6'] == "LPT6";
      assert "COM" + ['7'] == "COM7" && "LPT" + ['7'] == "LPT7";
      assert "COM" + ['8'] == "COM8" && "LPT" + ['8'] == "LPT8";
      assert "COM" + ['9'] == "COM9" && "LPT" + ['9'] == "LPT9";
    }
  }

  /** A safe path, as the file system takes it, leads from any directory to the place below it that it names: nowhere else, and different paths to different places. */
  lemma {:induction false} PathsStayBelow(root: Path, path: Path)
    requires ValidPath(path)
    ensures Resolved(root, Split(Slashed(path))) == [root + path]
  {
    SplitJoined(path);
    ResolvesBelow(root, path);
  }

  lemma {:induction false} SplitJoined(path: Path)
    requires path != [] && forall i :: 0 <= i < |path| ==> ValidSegment(path[i])
    ensures Split(Slashed(path)) == path
    decreases |path|
  {
    hide ValidSegment;
    NamesAreSafe(path[0]);
    if |path| == 1 {
      SplitFirst(path[0], "");
    } else {
      SplitFirst(path[0], Slashed(path[1..]));
      SplitJoined(path[1..]);
    }
  }

  lemma {:induction false} ResolvesBelow(at: Path, path: Path)
    requires forall i :: 0 <= i < |path| ==> ValidSegment(path[i])
    ensures Resolved(at, path) == [at + path]
    decreases |path|
  {
    hide ValidSegment;
    if path == [] {
      assert at + path == at;
    } else {
      NamesAreSafe(path[0]);
      ResolvesBelow(at + [path[0]], path[1..]);
      assert at + [path[0]] + path[1..] == at + path;
    }
  }
}
