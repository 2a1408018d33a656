/** Bencoding: the printer, the parser and the skipper of internal/bencode, on one value type. */
module Bencode {
  import opened Bytes
  import opened Decimal

  const MAX_DEPTH := 64
  const MIN_INT64 := -0x8000_0000_0000_0000
  const MAX_INT64 := 0x7FFF_FFFF_FFFF_FFFF

  /** Bytes are characters. A dictionary is its entries in ascending order of key. */
  datatype Value = Int(n: int) | Str(s: string) | List(items: seq<Value>) | Dict(entries: seq<Entry>)
  datatype Entry = Entry(key: string, value: Value)

  datatype ParseError = Syntax | TooDeep

  /** A parsed thing and how many bytes it took. */
  datatype Parsed<T> = Parsed(value: T, length: nat)

  // ---------- printing ----------

  function SignedItoa(n: int): (s: string) {
    if n < 0 then "-" + Itoa(-n) else Itoa(n)
  }

  function EncodeString(s: string): (t: string) {
    Itoa(|s|) + ":" + s
  }

  function Encode(v: Value): (t: string)
    decreases v, 0
  {
    match v
    case Int(n) => "i" + SignedItoa(n) + "e"
    case Str(s) => EncodeString(s)
    case List(items) => "l" + EncodeItems(items) + "e"
    case Dict(entries) => "d" + EncodeEntries(entries) + "e"
  }

  function EncodeItems(items: seq<Value>): (t: string) {
    if items == [] then "" else Encode(items[0]) + EncodeItems(items[1..])
  }

  function EncodeEntries(entries: seq<Entry>): (t: string) {
    if entries == [] then "" else EncodeString(entries[0].key) + Encode(entries[0].value) + EncodeEntries(entries[1..])
  }

  // ---------- parsing ----------

  /** indexOf, from the start of what is left. */
  function IndexOf(s: string, target: char): (i: int)
    ensures -1 <= i < |s|
  {
    if s == "" then -1 else if s[0] == target then 0 else
      var i := IndexOf(s[1..], target);
      if i < 0 then -1 else i + 1
  }

  /** checkIntegerText followed by ParseInt. */
  function IntegerText(text: string): (n: Option<int>) {
    if text == "" || text == "-0" then None
    else if text == "0" then Some(0)
    else
      var negative := text[0] == '-';
      var body := if negative then text[1..] else text;
      if body == "" || body[0] == '0' || !AllDigits(body) then None
      else
        var digits: int := Atoi(body);
        var n := if negative then -digits else digits;
        if MIN_INT64 <= n <= MAX_INT64 then Some(n) else None
  }

  function ScanInt(s: string): (r: Result<Parsed<int>, ParseError>)
    requires s != "" && s[0] == 'i'
    ensures r.Ok? ==> 0 < r.value.length <= |s|
  {
    var end := IndexOf(s[1..], 'e');
    if end < 0 then Err(Syntax)
    else
      match IntegerText(s[1..1 + end])
      case None => Err(Syntax)
      case Some(n) => Ok(Parsed(n, end + 2))
  }

  function ScanString(s: string): (r: Result<Parsed<string>, ParseError>)
    ensures r.Ok? ==> 0 < r.value.length <= |s|
  {
    var colon := IndexOf(s, ':');
    if colon <= 0 then Err(Syntax)
    else
      var text := s[..colon];
      if (|text| > 1 && text[0] == '0') || !AllDigits(text) then Err(Syntax)
      else
        var n := Atoi(text);
        if n > |s| - (colon + 1) then Err(Syntax) else Ok(Parsed(s[colon + 1..colon + 1 + n], colon + 1 + n))
  }

  predicate StartsString(s: string) {
    s != "" && IsDigit(s[0])
  }

  function ParseValue(s: string, depth: nat): (r: Result<Parsed<Value>, ParseError>)
    ensures r.Ok? ==> 0 < r.value.length <= |s|
    decreases |s|, 2
  {
    if depth + 1 > MAX_DEPTH then Err(TooDeep)
    else if s == "" then Err(Syntax)
    else if s[0] == 'i' then
      match ScanInt(s)
      case Err(e) => Err(e)
      case Ok(p) => Ok(Parsed(Int(p.value), p.length))
    else if IsDigit(s[0]) then
      match ScanString(s)
      case Err(e) => Err(e)
      case Ok(p) => Ok(Parsed(Str(p.value), p.length))
    else if s[0] == 'l' then
      match ParseItems(s[1..], depth + 1, [])
      case Err(e) => Err(e)
      case Ok(p) => Ok(Parsed(List(p.value), p.length + 1))
    else if s[0] == 'd' then
      match ParseEntries(s[1..], depth + 1, [])
      case Err(e) => Err(e)
      case Ok(p) => Ok(Parsed(Dict(p.value), p.length + 1))
    else Err(Syntax)
  }

  function ParseItems(s: string, depth: nat, out: seq<Value>): (r: Result<Parsed<seq<Value>>, ParseError>)
    ensures r.Ok? ==> 0 < r.value.length <= |s|
    decreases |s|, 3
  {
    if s == "" then Err(Syntax)
    else if s[0] == 'e' then Ok(Parsed(out, 1))
    else
      match ParseValue(s, depth)
      case Err(e) => Err(e)
      case Ok(p) =>
        match ParseItems(s[p.length..], depth, out + [p.value])
        case Err(e) => Err(e)
        case Ok(q) => Ok(Parsed(q.value, p.length + q.length))
  }

  function ParseEntries(s: string, depth: nat, out: seq<Entry>): (r: Result<Parsed<seq<Entry>>, ParseError>)
    ensures r.Ok? ==> 0 < r.value.length <= |s|
    decreases |s|, 3
  {
    if s == "" then Err(Syntax)
    else if s[0] == 'e' then Ok(Parsed(out, 1))
    else if !IsDigit(s[0]) then Err(Syntax)
    else
      match ScanString(s)
      case Err(e) => Err(e)
      case Ok(k) =>
        match ParseValue(s[k.length..], depth)
        case Err(e) => Err(e)
        case Ok(p) =>
          match ParseEntries(s[k.length + p.length..], depth, Insert(out, k.value, p.value))
          case Err(e) => Err(e)
          case Ok(q) => Ok(Parsed(q.value, k.length + p.length + q.length))
  }

  lemma {:induction false} IndexMeans(s: string, target: char)
    ensures var i := IndexOf(s, target); i >= 0 ==> s[i] == target
  {
    if s != "" && s[0] != target {
      IndexMeans(s[1..], target);
    }
  }

  /** An integer is accepted only as it is printed: no leading zeros, no sign on zero, within 64 bits. */
  lemma {:induction false} ScannedIntIsPrinted(s: string)
    requires s != "" && s[0] == 'i' && ScanInt(s).Ok?
    ensures var p := ScanInt(s).value;
            MIN_INT64 <= p.value <= MAX_INT64 && s[..p.length] == "i" + SignedItoa(p.value) + "e"
  {
    hide IndexOf, Itoa, Atoi, AllDigits;
    var end := IndexOf(s[1..], 'e');
    IndexMeans(s[1..], 'e');
    var text, n := s[1..1 + end], ScanInt(s).value.value;
    TextIsPrinted(text);
    hide SignedItoa, IntegerText;
    assert s[1..][end] == s[end + 1];
    assert s[..end + 2] == [s[0]] + text + [s[end + 1]];
  }

  lemma {:induction false} TextIsPrinted(text: string)
    requires IntegerText(text).Some?
    ensures SignedItoa(IntegerText(text).value) == text && MIN_INT64 <= IntegerText(text).value <= MAX_INT64
  {
    if text == "0" {
      AtoiRoundTrip(text);
      assert Atoi(text) == 0;
    } else if text[0] == '-' {
      AtoiRoundTrip(text[1..]);
      assert text == "-" + text[1..];
    } else {
      AtoiRoundTrip(text);
    }
  }

  /** A string is accepted only as it is printed: its length without leading zeros, a colon, and as many bytes. */
  lemma {:induction false} ScannedStringIsPrinted(s: string)
    requires ScanString(s).Ok?
    ensures var p := ScanString(s).value; s[..p.length] == EncodeString(p.value)
  {
    hide IndexOf, Itoa, Atoi, AllDigits;
    var colon := IndexOf(s, ':');
    IndexMeans(s, ':');
    var text := s[..colon];
    AtoiRoundTrip(text);
    var n := Atoi(text);
    assert s[..colon + 1 + n] == text + [s[colon]] + s[colon + 1..colon + 1 + n];
  }

  // ---------- dictionaries as sorted entries ----------

  /** Byte-wise order of keys. */
  predicate Less(a: string, b: string) {
    b != "" && (a == "" || a[0] < b[0] || (a[0] == b[0] && Less(a[1..], b[1..])))
  }

  lemma {:induction false} LessIsTotal(a: string, b: string)
    ensures Less(a, b) || a == b || Less(b, a)
    ensures !(Less(a, b) && Less(b, a)) && !Less(a, a)
  {
    if a != "" && b != "" && a[0] == b[0] {
      LessIsTotal(a[1..], b[1..]);
      assert a == [a[0]] + a[1..] && b == [b[0]] + b[1..];
    }
    if a != "" {
      LessIsTotal(a[1..], a[1..]);
    }
  }

  lemma {:induction false} LessIsTransitive(a: string, b: string, c: string)
    requires Less(a, b) && Less(b, c)
    ensures Less(a, c)
  {
    if a != "" && a[0] == b[0] == c[0] {
      LessIsTransitive(a[1..], b[1..], c[1..]);
    }
  }

  predicate Ascending(es: seq<Entry>) {
    |es| >= 2 ==> Less(es[0].key, es[1].key) && Ascending(es[1..])
  }

  /** Assigning to a key, the last assignment winning. */
  function Insert(es: seq<Entry>, key: string, v: Value): (es': seq<Entry>) {
    if es == [] || Less(key, es[0].key) then [Entry(key, v)] + es
    else if es[0].key == key then [Entry(key, v)] + es[1..]
    else [es[0]] + Insert(es[1..], key, v)
  }

  lemma {:induction false} InsertKeepsOrder(es: seq<Entry>, key: string, v: Value)
    requires Ascending(es)
    ensures Ascending(Insert(es, key, v))
    ensures es != [] && Insert(es, key, v)[0].key != key ==> Insert(es, key, v)[0].key == es[0].key
  {
    if es != [] && es[0].key != key && !Less(key, es[0].key) {
      LessIsTotal(key, es[0].key);
      InsertKeepsOrder(es[1..], key, v);
      var rest := Insert(es[1..], key, v);
      assert rest[0].key == key || (|es| > 1 && rest[0].key == es[1].key);
      assert ([es[0]] + rest)[1..] == rest;
    } else if es != [] {
      var out := Insert(es, key, v);
      assert out[1..] == if es[0].key == key && !Less(key, es[0].key) then es[1..] else es;
    }
  }

  /** A key beyond all others goes to the end. */
  lemma {:induction false} InsertLast(es: seq<Entry>, key: string, v: Value)
    requires Ascending(es) && (es != [] ==> Less(es[|es| - 1].key, key))
    ensures Insert(es, key, v) == es + [Entry(key, v)]
  {
    if es != [] {
      if |es| > 1 {
        LastIsGreatest(es);
        LessIsTransitive(es[0].key, es[|es| - 1].key, key);
      }
      LessIsTotal(es[0].key, key);
      InsertLast(es[1..], key, v);
    }
  }

  lemma {:induction false} LastIsGreatest(es: seq<Entry>)
    requires Ascending(es) && |es| > 1
    ensures Less(es[0].key, es[|es| - 1].key)
    ensures Ascending(es[1..])
  {
    if |es| > 2 {
      LastIsGreatest(es[1..]);
      LessIsTransitive(es[0].key, es[1].key, es[|es| - 1].key);
    }
  }

  // ---------- skipping ----------

  function Skip(s: string, depth: nat): (r: Result<nat, ParseError>)
    ensures r.Ok? ==> 0 < r.value <= |s|
    decreases |s|, 2
  {
    if depth + 1 > MAX_DEPTH then Err(TooDeep)
    else if s == "" then Err(Syntax)
    else if s[0] == 'i' then
      match ScanInt(s)
      case Err(e) => Err(e)
      case Ok(p) => Ok(p.length)
    else if IsDigit(s[0]) then
      match ScanString(s)
      case Err(e) => Err(e)
      case Ok(p) => Ok(p.length)
    else if s[0] == 'l' || s[0] == 'd' then
      match SkipItems(s[1..], depth + 1)
      case Err(e) => Err(e)
      case Ok(n) => Ok(n + 1)
    else Err(Syntax)
  }

  function SkipItems(s: string, depth: nat): (r: Result<nat, ParseError>)
    ensures r.Ok? ==> 0 < r.value <= |s|
    decreases |s|, 3
  {
    if s == "" then Err(Syntax)
    else if s[0] == 'e' then Ok(1)
    else
      match Skip(s, depth)
      case Err(e) => Err(e)
      case Ok(n) =>
        match SkipItems(s[n..], depth)
        case Err(e) => Err(e)
        case Ok(m) => Ok(n + m)
  }

  /** Whatever is decoded is skipped too, to the same end. */
  lemma {:induction false} ParsedIsSkipped(s: string, depth: nat)
    requires ParseValue(s, depth).Ok?
    ensures Skip(s, depth) == Ok(ParseValue(s, depth).value.length)
    decreases |s|, 2
  {
    if s[0] == 'l' {
      ParsedItemsAreSkipped(s[1..], depth + 1, []);
    } else if s[0] == 'd' {
      ParsedEntriesAreSkipped(s[1..], depth + 1, []);
    }
  }

  lemma {:induction false} ParsedItemsAreSkipped(s: string, depth: nat, out: seq<Value>)
    requires ParseItems(s, depth, out).Ok?
    ensures SkipItems(s, depth) == Ok(ParseItems(s, depth, out).value.length)
    decreases |s|, 3
  {
    if s[0] != 'e' {
      ParsedIsSkipped(s, depth);
      var p := ParseValue(s, depth).value;
      ParsedItemsAreSkipped(s[p.length..], depth, out + [p.value]);
    }
  }

  lemma {:induction false} ParsedEntriesAreSkipped(s: string, depth: nat, out: seq<Entry>)
    requires ParseEntries(s, depth, out).Ok?
    ensures SkipItems(s, depth) == Ok(ParseEntries(s, depth, out).value.length)
    decreases |s|, 3
  {
    if s[0] != 'e' {
      hide ScanString, Insert;
      var k := ScanString(s).value;
      ParsedIsSkipped(s[k.length..], depth);
      var p := ParseValue(s[k.length..], depth).value;
      ParsedEntriesAreSkipped(s[k.length + p.length..], depth, Insert(out, k.value, p.value));
      assert s[k.length..][p.length..] == s[k.length + p.length..];
    }
  }

  // ---------- round trips ----------

  function Height(v: Value): (h: nat)
    ensures h > 0
    decreases v, 0
  {
    match v
    case Int(_) => 1
    case Str(_) => 1
    case List(items) => 1 + ItemsHeight(items)
    case Dict(entries) => 1 + EntriesHeight(entries)
  }

  function ItemsHeight(items: seq<Value>): (h: nat) {
    if items == [] then 0 else MaxNat(Height(items[0]), ItemsHeight(items[1..]))
  }

  function EntriesHeight(entries: seq<Entry>): (h: nat) {
    if entries == [] then 0 else MaxNat(Height(entries[0].value), EntriesHeight(entries[1..]))
  }

  function MaxNat(a: nat, b: nat): (m: nat) {
    if a <= b then b else a
  }

  /** Values with 64-bit integers and dictionaries in canonical form. */
  ghost predicate Well(v: Value)
    decreases v, 0
  {
    match v
    case Int(n) => MIN_INT64 <= n <= MAX_INT64
    case Str(_) => true
    case List(items) => AllWell(items)
    case Dict(entries) => Ascending(entries) && EntriesWell(entries)
  }

  ghost predicate AllWell(items: seq<Value>) {
    items != [] ==> Well(items[0]) && AllWell(items[1..])
  }

  ghost predicate EntriesWell(entries: seq<Entry>) {
    entries != [] ==> Well(entries[0].value) && EntriesWell(entries[1..])
  }

  lemma {:induction false} IndexOfAfter(a: string, target: char, rest: string)
    requires target !in a
    ensures IndexOf(a + [target] + rest, target) == |a|
  {
    if a == [] {
      assert (a + [target] + rest)[0] == target;
    } else {
      assert (a + [target] + rest)[1..] == a[1..] + [target] + rest;
      IndexOfAfter(a[1..], target, rest);
    }
  }

  lemma {:induction false} StringRoundTrip(s: string, rest: string)
    ensures ScanString(EncodeString(s) + rest) == Ok(Parsed(s, |EncodeString(s)|))
    ensures StartsString(EncodeString(s) + rest)
  {
    var digits := Itoa(|s|);
    var all := EncodeString(s) + rest;
    ItoaRoundTrip(|s|);
    assert all == digits + [':'] + (s + rest);
    IndexOfAfter(digits, ':', s + rest);
    assert all[..|digits|] == digits;
    assert all[|digits| + 1..|digits| + 1 + |s|] == s;
  }

  lemma {:induction false} IntegerTextOf(n: int)
    requires MIN_INT64 <= n <= MAX_INT64
    ensures IntegerText(SignedItoa(n)) == Some(n) && 'e' !in SignedItoa(n)
  {
    hide Itoa, Atoi;
    var m := if n < 0 then -n else n;
    ItoaRoundTrip(m);
    if n < 0 {
      assert SignedItoa(n)[1..] == Itoa(-n) && SignedItoa(n)[0] == '-';
    }
  }

  lemma {:induction false} IntRoundTrip(n: int, rest: string)
    requires MIN_INT64 <= n <= MAX_INT64
    ensures var all := Encode(Int(n)) + rest;
            all[0] == 'i' && ScanInt(all) == Ok(Parsed(n, |Encode(Int(n))|))
  {
    hide IntegerText, SignedItoa;
    var text := SignedItoa(n);
    var all := Encode(Int(n)) + rest;
    IntegerTextOf(n);
    assert all[1..] == text + ['e'] + rest;
    IndexOfAfter(text, 'e', rest);
    assert all[1..1 + |text|] == text;
  }

  lemma {:induction false} Bracketed(c: char, body: string, rest: string)
    ensures var all := ([c] + body + "e") + rest;
            all[0] == c && all[1..] == body + "e" + rest && |[c] + body + "e"| == |body| + 2
  {
  }

  /** Decoding what was encoded, whatever follows: the same value and the same end, exactly when it is not too tall. */
  lemma {:induction false} RoundTrip(v: Value, rest: string, depth: nat)
    requires Well(v)
    ensures ParseValue(Encode(v) + rest, depth)
         == if depth + Height(v) <= MAX_DEPTH then Ok(Parsed(v, |Encode(v)|)) else Err(TooDeep)
    decreases v, 1
  {
    hide ScanInt, ScanString, EncodeString, SignedItoa, EncodeItems, EncodeEntries, AllWell, EntriesWell, ItemsHeight, EntriesHeight, ParseItems, ParseEntries;
    if depth + 1 <= MAX_DEPTH {
      match v {
        case Int(n) =>
          IntRoundTrip(n, rest);
        case Str(s) =>
          StringRoundTrip(s, rest);
          assert Encode(v) == EncodeString(s);
        case List(items) =>
          ItemsRoundTrip(items, rest, depth + 1, []);
          Bracketed('l', EncodeItems(items), rest);
          assert [] + items == items;
        case Dict(entries) =>
          assert [] + entries == entries;
          EntriesRoundTrip(entries, rest, depth + 1, []);
          Bracketed('d', EncodeEntries(entries), rest);
          assert [] + entries == entries;
      }
    }
  }

  /** The encoding of a value never starts with the end mark. */
  lemma {:induction false} StartOfEncoding(v: Value)
    ensures Encode(v) != "" && Encode(v)[0] != 'e'
  {
    if v.Str? {
      ItoaRoundTrip(|v.s|);
      assert Encode(v)[0] == Itoa(|v.s|)[0];
    }
  }

  lemma {:induction false} ItemsRoundTrip(items: seq<Value>, rest: string, depth: nat, out: seq<Value>)
    requires AllWell(items) && 0 < depth <= MAX_DEPTH
    ensures ParseItems(EncodeItems(items) + "e" + rest, depth, out)
         == if depth + ItemsHeight(items) <= MAX_DEPTH then Ok(Parsed(out + items, |EncodeItems(items)| + 1)) else Err(TooDeep)
    decreases items
  {
    hide ScanInt, ScanString, EncodeString, SignedItoa;
    var all := EncodeItems(items) + "e" + rest;
    if items == [] {
      assert all[0] == 'e' && out + items == out;
    } else {
      var first, tail := Encode(items[0]), EncodeItems(items[1..]) + "e" + rest;
      assert all == first + tail;
      StartOfEncoding(items[0]);
      assert all[0] == first[0];
      RoundTrip(items[0], tail, depth);
      if depth + Height(items[0]) <= MAX_DEPTH {
        assert all[|first|..] == tail;
        ItemsRoundTrip(items[1..], rest, depth, out + [items[0]]);
        assert (out + [items[0]]) + items[1..] == out + items;
      }
    }
  }

  lemma {:induction false} EntriesRoundTrip(entries: seq<Entry>, rest: string, depth: nat, out: seq<Entry>)
    requires EntriesWell(entries) && Ascending(out + entries) && 0 < depth <= MAX_DEPTH
    ensures ParseEntries(EncodeEntries(entries) + "e" + rest, depth, out)
         == if depth + EntriesHeight(entries) <= MAX_DEPTH then Ok(Parsed(out + entries, |EncodeEntries(entries)| + 1)) else Err(TooDeep)
    decreases entries
  {
    hide ScanInt, ScanString, EncodeString, SignedItoa, Insert, Ascending, Encode, Well, ParseValue, Height;
    var all := EncodeEntries(entries) + "e" + rest;
    if entries == [] {
      assert all[0] == 'e' && out + entries == out;
    } else {
      var key, first, tail := EncodeString(entries[0].key), Encode(entries[0].value), EncodeEntries(entries[1..]) + "e" + rest;
      Regroup(key, first, EncodeEntries(entries[1..]), rest);
      assert all == key + (first + tail);
      StringRoundTrip(entries[0].key, first + tail);
      assert all[|key|..] == first + tail;
      RoundTrip(entries[0].value, tail, depth);
      if depth + Height(entries[0].value) <= MAX_DEPTH {
        assert all[|key| + |first|..] == tail;
        AppendInOrder(out, entries);
        assert (out + [entries[0]]) + entries[1..] == out + entries;
        EntriesRoundTrip(entries[1..], rest, depth, out + [entries[0]]);
      }
    }
  }

  lemma {:induction false} Regroup(a: string, b: string, c: string, d: string)
    ensures (a + b + c) + "e" + d == a + (b + (c + "e" + d))
  {
  }

  lemma {:induction false} AppendInOrder(out: seq<Entry>, entries: seq<Entry>)
    requires Ascending(out + entries) && entries != []
    ensures Insert(out, entries[0].key, entries[0].value) == out + [entries[0]]
  {
    AscendingParts(out, entries);
    assert Entry(entries[0].key, entries[0].value) == entries[0];
    InsertLast(out, entries[0].key, entries[0].value);
  }

  lemma {:induction false} AscendingParts(a: seq<Entry>, b: seq<Entry>)
    requires Ascending(a + b) && b != []
    ensures Ascending(a) && (a != [] ==> Less(a[|a| - 1].key, b[0].key))
  {
    if a != [] {
      assert (a + b)[1..] == a[1..] + b;
      AscendingParts(a[1..], b);
    }
  }

  /** Skipping captures exactly the bytes of an encoding. */
  lemma {:induction false} SkipsExactly(v: Value, rest: string, depth: nat)
    requires Well(v) && depth + Height(v) <= MAX_DEPTH
    ensures Skip(Encode(v) + rest, depth) == Ok(|Encode(v)|)
  {
    RoundTrip(v, rest, depth);
    ParsedIsSkipped(Encode(v) + rest, depth);
  }

  /** Whatever decodes is canonical and short enough to be encoded and decoded again as itself. */
  lemma {:induction false} ParsedIsWell(s: string, depth: nat)
    requires ParseValue(s, depth).Ok?
    ensures var v := ParseValue(s, depth).value.value; Well(v) && depth + Height(v) <= MAX_DEPTH
    decreases |s|, 2
  {
    if s[0] == 'l' {
      ParsedItemsAreWell(s[1..], depth + 1, []);
    } else if s[0] == 'd' {
      ParsedEntriesAreWell(s[1..], depth + 1, []);
    }
  }

  lemma {:induction false} ParsedItemsAreWell(s: string, depth: nat, out: seq<Value>)
    requires ParseItems(s, depth, out).Ok? && AllWell(out) && depth + ItemsHeight(out) <= MAX_DEPTH
    ensures var vs := ParseItems(s, depth, out).value.value; AllWell(vs) && depth + ItemsHeight(vs) <= MAX_DEPTH
    decreases |s|, 3
  {
    if s[0] != 'e' {
      ParsedIsWell(s, depth);
      var p := ParseValue(s, depth).value;
      OneMoreItem(out, p.value);
      ParsedItemsAreWell(s[p.length..], depth, out + [p.value]);
    }
  }

  lemma {:induction false} OneMoreItem(out: seq<Value>, v: Value)
    requires AllWell(out) && Well(v)
    ensures AllWell(out + [v]) && ItemsHeight(out + [v]) == MaxNat(ItemsHeight(out), Height(v))
  {
    if out == [] {
      assert out + [v] == [v] && [v][1..] == [];
    } else {
      assert (out + [v])[1..] == out[1..] + [v];
      OneMoreItem(out[1..], v);
    }
  }

  lemma {:induction false} ParsedEntriesAreWell(s: string, depth: nat, out: seq<Entry>)
    requires ParseEntries(s, depth, out).Ok? && EntriesWell(out) && Ascending(out) && depth + EntriesHeight(out) <= MAX_DEPTH
    ensures var es := ParseEntries(s, depth, out).value.value; Ascending(es) && EntriesWell(es) && depth + EntriesHeight(es) <= MAX_DEPTH
    decreases |s|, 3
  {
    hide ScanString, Insert, Ascending, EntriesWell, EntriesHeight;
    if s[0] != 'e' {
      var k := ScanString(s).value;
      ParsedIsWell(s[k.length..], depth);
      var p := ParseValue(s[k.length..], depth).value;
      InsertKeepsOrder(out, k.value, p.value);
      OneMoreEntry(out, k.value, p.value);
      ParsedEntriesAreWell(s[k.length + p.length..], depth, Insert(out, k.value, p.value));
    }
  }

  lemma {:induction false} OneMoreEntry(out: seq<Entry>, key: string, v: Value)
    requires EntriesWell(out) && Well(v)
    ensures EntriesWell(Insert(out, key, v)) && EntriesHeight(Insert(out, key, v)) <= MaxNat(EntriesHeight(out), Height(v))
  {
    hide Less, Well, Height;
    var es := Insert(out, key, v);
    if out == [] {
      assert es[1..] == [];
    } else if Less(key, out[0].key) {
      assert es[1..] == out;
    } else if out[0].key == key {
      assert es[1..] == out[1..];
    } else {
      OneMoreEntry(out[1..], key, v);
      assert es[1..] == Insert(out[1..], key, v);
    }
  }

  /** Decoding is idempotent up to re-encoding: encode what was decoded, and it decodes to the same value. */
  lemma {:induction false} ReencodedDecodesTheSame(s: string, rest: string, depth: nat)
    requires ParseValue(s, depth).Ok?
    ensures var v := ParseValue(s, depth).value.value;
            ParseValue(Encode(v) + rest, depth) == Ok(Parsed(v, |Encode(v)|))
  {
    ParsedIsWell(s, depth);
    RoundTrip(ParseValue(s, depth).value.value, rest, depth);
  }
}
