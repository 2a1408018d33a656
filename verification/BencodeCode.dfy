/** The decoder and the encoder of internal/bencode: decode.go and encode.go. */
module BencodeCode {
  import opened Bytes
  import opened Decimal
  import opened Bencode

  class DecodeState {
    const data: string
    var pos: nat
    var depth: nat

    ghost predicate Valid()
      reads this
    {
      pos <= |data|
    }

    /** What is left to read. */
    ghost function Rest(): (s: string)
      requires Valid()
      reads this
    {
      data[pos..]
    }

    constructor (data: string)
      ensures Valid() && this.data == data && pos == 0 && depth == 0
    {
      this.data, pos, depth := data, 0, 0;
    }

    /** indexOf, as an absolute position. */
    method FindFrom(start: nat, target: char) returns (i: int)
      requires start <= |data|
      ensures var k := IndexOf(data[start..], target); i == if k < 0 then -1 else start + k
    {
      i := start;
      while i < |data|
        invariant start <= i <= |data|
        invariant var k, m := IndexOf(data[start..], target), IndexOf(data[i..], target);
                  if m < 0 then k < 0 else k >= 0 && start + k == i + m
      {
        assert data[i..][1..] == data[i + 1..];
        if data[i] == target {
          return;
        }
        i := i + 1;
      }
      i := -1;
    }

    method ScanIntToken() returns (r: Result<int, ParseError>)
      requires Valid() && Rest() != "" && Rest()[0] == 'i'
      modifies this`pos
      ensures Valid() && Follows(old(Rest()), ScanInt(old(Rest())), r, Rest())
    {
      hide IndexOf, IntegerText;
      ghost var s := Rest();
      pos := pos + 1;
      assert data[pos..] == s[1..];
      var end := FindFrom(pos, 'e');
      if end < 0 {
        return Err(Syntax);
      }
      var text := data[pos..end];
      assert text == s[1..1 + (end - pos)];
      pos := end + 1;
      var n := IntegerText(text);
      if n.None? {
        return Err(Syntax);
      }
      r := Ok(n.value);
    }

    method ScanStringToken() returns (r: Result<string, ParseError>)
      requires Valid()
      modifies this`pos
      ensures Valid() && Follows(old(Rest()), ScanString(old(Rest())), r, Rest())
    {
      hide IndexOf;
      ghost var s := Rest();
      var colon := FindFrom(pos, ':');
      if colon < 0 {
        return Err(Syntax);
      }
      var text := data[pos..colon];
      assert text == s[..colon - pos];
      if text == "" || (|text| > 1 && text[0] == '0') || !AllDigits(text) {
        return Err(Syntax);
      }
      var n := Atoi(text);
      if n > |data| - (colon + 1) {
        return Err(Syntax);
      }
      SliceOfRest(data, pos, colon - pos + 1, colon - pos + 1 + n);
      r := Ok(data[colon + 1..colon + 1 + n]);
      pos := colon + 1 + n;
    }

    /** value: one value, one level deeper, the level restored on every way out. */
    method DecodeValue() returns (r: Result<Value, ParseError>)
      requires Valid()
      modifies this
      ensures Valid() && depth == old(depth) && Follows(old(Rest()), ParseValue(old(Rest()), old(depth)), r, Rest())
      decreases |data| - pos, 2
    {
      hide ScanInt, ScanString, ParseItems, ParseEntries;
      depth := depth + 1;
      if depth > MAX_DEPTH {
        depth := depth - 1;
        return Err(TooDeep);
      }
      if pos >= |data| {
        depth := depth - 1;
        return Err(Syntax);
      }
      var c := data[pos];
      if c == 'i' {
        var n := ScanIntToken();
        r := if n.Ok? then Ok(Int(n.value)) else Err(n.error);
      } else if IsDigit(c) {
        var s := ScanStringToken();
        r := if s.Ok? then Ok(Str(s.value)) else Err(s.error);
      } else if c == 'l' {
        r := DecodeList();
      } else if c == 'd' {
        r := DecodeDict();
      } else {
        r := Err(Syntax);
      }
      depth := depth - 1;
    }

    method DecodeList() returns (r: Result<Value, ParseError>)
      requires Valid() && Rest() != "" && Rest()[0] == 'l'
      modifies this
      ensures Valid() && depth == old(depth)
      ensures FollowsIn(old(Rest()), ParseItems(old(Rest())[1..], depth, []), r, Rest(), items => List(items))
      decreases |data| - pos, 1
    {
      hide ParseValue, Continues;
      ghost var s := Rest();
      ContinuesItself(ParseItems(s[1..], depth, []));
      pos := pos + 1;
      var out: seq<Value> := [];
      ghost var n := 0;
      while true
        invariant Valid() && depth == old(depth) && old(pos) + 1 <= pos && n == pos - (old(pos) + 1)
        invariant Continues(ParseItems(s[1..], depth, []), ParseItems(Rest(), depth, out), n)
        decreases |data| - pos
      {
        ContinuesMeans(ParseItems(s[1..], depth, []), ParseItems(Rest(), depth, out), n);
        if pos >= |data| {
          return Err(Syntax);
        }
        if data[pos] == 'e' {
          pos := pos + 1;
          return Ok(List(out));
        }
        ghost var before := Rest();
        var elem := DecodeValue();
        if elem.Err? {
          return Err(elem.error);
        }
        ghost var p := ParseValue(before, depth).value;
        assert Rest() == before[p.length..];
        ItemStep(before, depth, out);
        ContinuesFurther(ParseItems(s[1..], depth, []), ParseItems(before, depth, out), ParseItems(Rest(), depth, out + [elem.value]), n, p.length);
        n := n + p.length;
        out := out + [elem.value];
      }
    }

    method DecodeDict() returns (r: Result<Value, ParseError>)
      requires Valid() && Rest() != "" && Rest()[0] == 'd'
      modifies this
      ensures Valid() && depth == old(depth)
      ensures FollowsIn(old(Rest()), ParseEntries(old(Rest())[1..], depth, []), r, Rest(), entries => Dict(entries))
      decreases |data| - pos, 1
    {
      hide ParseValue, ScanString, Insert, Continues;
      ghost var s := Rest();
      ContinuesItself(ParseEntries(s[1..], depth, []));
      pos := pos + 1;
      var out: seq<Entry> := [];
      ghost var n := 0;
      while true
        invariant Valid() && depth == old(depth) && old(pos) + 1 <= pos && n == pos - (old(pos) + 1)
        invariant Continues(ParseEntries(s[1..], depth, []), ParseEntries(Rest(), depth, out), n)
        decreases |data| - pos
      {
        ContinuesMeans(ParseEntries(s[1..], depth, []), ParseEntries(Rest(), depth, out), n);
        if pos >= |data| {
          return Err(Syntax);
        }
        if data[pos] == 'e' {
          pos := pos + 1;
          return Ok(Dict(out));
        }
        if !IsDigit(data[pos]) {
          return Err(Syntax);
        }
        ghost var was, before := pos, Rest();
        var more := DecodeEntry(out);
        if more.Err? {
          return Err(more.error);
        }
        ContinuesFurther(ParseEntries(s[1..], depth, []), ParseEntries(before, depth, out), ParseEntries(Rest(), depth, more.value), n, pos - was);
        n := n + (pos - was);
        out := more.value;
      }
    }

    /** One key and its value. */
    method DecodeEntry(out: seq<Entry>) returns (r: Result<seq<Entry>, ParseError>)
      requires Valid() && StartsString(Rest())
      modifies this
      ensures Valid() && depth == old(depth)
      ensures r.Ok? ==> pos > old(pos)
                        && Continues(ParseEntries(old(Rest()), depth, out), ParseEntries(Rest(), depth, r.value), pos - old(pos))
      ensures r.Err? ==> ParseEntries(old(Rest()), depth, out) == Err(r.error)
      decreases |data| - pos, 0
    {
      hide ParseValue, ScanString, Insert, ParseEntries, Continues;
      ghost var before := Rest();
      EntryStep(before, depth, out);
      var key := ScanStringToken();
      if key.Err? {
        return Err(key.error);
      }
      ghost var k := ScanString(before).value;
      ghost var middle := Rest();
      assert middle == before[k.length..];
      var elem := DecodeValue();
      if elem.Err? {
        return Err(elem.error);
      }
      ghost var p := ParseValue(middle, depth).value;
      assert Rest() == middle[p.length..] == before[k.length + p.length..];
      r := Ok(Insert(out, key.value, elem.value));
    }

    /** skipValue. */
    method SkipValue() returns (r: Result<(), ParseError>)
      requires Valid()
      modifies this
      ensures Valid() && depth == old(depth)
      ensures var k := Skip(old(Rest()), old(depth));
              if k.Ok? then r.Ok? && Rest() == old(Rest())[k.value..] else r == Err(k.error)
      decreases |data| - pos, 2
    {
      hide ScanInt, ScanString, SkipItems;
      depth := depth + 1;
      if depth > MAX_DEPTH {
        depth := depth - 1;
        return Err(TooDeep);
      }
      if pos >= |data| {
        depth := depth - 1;
        return Err(Syntax);
      }
      var c := data[pos];
      if c == 'i' {
        var n := ScanIntToken();
        r := if n.Ok? then Ok(()) else Err(n.error);
      } else if IsDigit(c) {
        var s := ScanStringToken();
        r := if s.Ok? then Ok(()) else Err(s.error);
      } else if c == 'l' || c == 'd' {
        r := SkipBody();
      } else {
        r := Err(Syntax);
      }
      depth := depth - 1;
    }

    /** The loop of skipValue over the members of a list or dictionary. */
    method SkipBody() returns (r: Result<(), ParseError>)
      requires Valid() && Rest() != ""
      modifies this
      ensures Valid() && depth == old(depth)
      ensures var k := SkipItems(old(Rest())[1..], depth);
              if k.Ok? then r.Ok? && Rest() == old(Rest())[k.value + 1..] else r == Err(k.error)
      decreases |data| - pos, 1
    {
      hide Skip;
      ghost var s := Rest();
      pos := pos + 1;
      ghost var n := 0;
      while true
        invariant Valid() && depth == old(depth) && old(pos) + 1 <= pos && n == pos - (old(pos) + 1)
        invariant var k, m := SkipItems(s[1..], depth), SkipItems(Rest(), depth);
                  if m.Ok? then k == Ok(n + m.value) else k == m
        decreases |data| - pos
      {
        if pos >= |data| {
          return Err(Syntax);
        }
        if data[pos] == 'e' {
          pos := pos + 1;
          return Ok(());
        }
        ghost var before := Rest();
        var one := SkipValue();
        if one.Err? {
          return Err(one.error);
        }
        ghost var k := Skip(before, depth).value;
        assert Rest() == before[k..];
        n := n + k;
      }
    }

    /** skip: the raw bytes of the next value. */
    method RawValue() returns (r: Result<string, ParseError>)
      requires Valid()
      modifies this
      ensures Valid() && depth == old(depth)
      ensures var k := Skip(old(Rest()), old(depth));
              if k.Ok? then r == Ok(old(Rest())[..k.value]) && Rest() == old(Rest())[k.value..] else r == Err(k.error)
    {
      hide Skip;
      var start := pos;
      ghost var s := Rest();
      var skipped := SkipValue();
      if skipped.Err? {
        return Err(skipped.error);
      }
      ghost var k := Skip(s, depth).value;
      assert |data| - pos == |s| - k;
      assert data[start..pos] == s[..k];
      r := Ok(data[start..pos]);
    }
  }

  lemma {:induction false} SliceOfRest(data: string, pos: nat, i: nat, j: nat)
    requires i <= j && pos + j <= |data|
    ensures data[pos..][i..j] == data[pos + i..pos + j]
  {
  }

  lemma {:induction false} Regrouped(a: string, b: string, c: string, d: string)
    ensures (a + b) + c == a + (b + c) && (a + (b + c)) + d == a + (b + (c + d)) && (b + c) + d == b + (c + d)
    ensures ((a + b) + c) + d == a + (b + (c + d))
  {
  }

  /** The outcome of a scan that the specification describes: the same value and the same end, or the same error. */
  ghost predicate Follows<T>(s: string, want: Result<Parsed<T>, ParseError>, r: Result<T, ParseError>, rest: string) {
    if want.Ok? then want.value.length <= |s| && r == Ok(want.value.value) && rest == s[want.value.length..] else r == Err(want.error)
  }

  /** The same for a bracketed value, whose opening byte the specification leaves out. */
  ghost predicate FollowsIn<T>(s: string, want: Result<Parsed<T>, ParseError>, r: Result<Value, ParseError>, rest: string, make: T -> Value) {
    if want.Ok? then want.value.length + 1 <= |s| && r == Ok(make(want.value.value)) && rest == s[want.value.length + 1..] else r == Err(want.error)
  }

  /** A loop n bytes into what `whole` describes has `part` still to do. */
  ghost predicate Continues<T>(whole: Result<Parsed<T>, ParseError>, part: Result<Parsed<T>, ParseError>, n: nat) {
    if part.Ok? then whole == Ok(Parsed(part.value.value, n + part.value.length)) else whole == part
  }

  /** One turn of the list loop, and of the dictionary loop. */
  lemma {:induction false} ItemStep(s: string, depth: nat, out: seq<Value>)
    requires s != "" && s[0] != 'e' && ParseValue(s, depth).Ok?
    ensures var p := ParseValue(s, depth).value;
            Continues(ParseItems(s, depth, out), ParseItems(s[p.length..], depth, out + [p.value]), p.length)
  {
    hide ParseValue;
  }

  lemma {:induction false} EntryStep(s: string, depth: nat, out: seq<Entry>)
    requires StartsString(s)
    ensures ScanString(s).Err? ==> ParseEntries(s, depth, out) == Err(ScanString(s).error)
    ensures ScanString(s).Ok? ==>
              var k := ScanString(s).value;
              var v := ParseValue(s[k.length..], depth);
              && (v.Err? ==> ParseEntries(s, depth, out) == Err(v.error))
              && (v.Ok? ==> k.length + v.value.length <= |s|
                            && Continues(ParseEntries(s, depth, out), ParseEntries(s[k.length + v.value.length..], depth, Insert(out, k.value, v.value.value)),
                                         k.length + v.value.length))
  {
    hide ParseValue, ScanString, Insert;
  }

  lemma {:induction false} ContinuesMeans<T>(whole: Result<Parsed<T>, ParseError>, part: Result<Parsed<T>, ParseError>, n: nat)
    requires Continues(whole, part, n)
    ensures if part.Ok? then whole == Ok(Parsed(part.value.value, n + part.value.length)) else whole == part
  {
  }

  lemma {:induction false} ContinuesItself<T>(whole: Result<Parsed<T>, ParseError>)
    ensures Continues(whole, whole, 0)
  {
  }

  lemma {:induction false} ContinuesFurther<T>(whole: Result<Parsed<T>, ParseError>, part: Result<Parsed<T>, ParseError>,
                                               rest: Result<Parsed<T>, ParseError>, n: nat, m: nat)
    requires Continues(whole, part, n) && Continues(part, rest, m)
    ensures Continues(whole, rest, n + m)
  {
  }

  /** Unmarshal into an untyped value; bytes after it are ignored. */
  method Unmarshal(data: string) returns (r: Result<Value, ParseError>)
    ensures var want := ParseValue(data, 0);
            if want.Ok? then r == Ok(want.value.value) else r == Err(want.error)
  {
    hide ParseValue;
    var d := new DecodeState(data);
    assert data[0..] == data;
    r := d.DecodeValue();
  }

  class Encoder {
    var buf: string

    constructor ()
      ensures buf == ""
    {
      buf := "";
    }

    method MarshalValue(v: Value)
      modifies this
      ensures buf == old(buf) + Encode(v)
      decreases v, 0
    {
      match v {
        case Int(n) =>
          buf := buf + "i";
          buf := buf + SignedItoa(n);
          buf := buf + "e";
        case Str(s) =>
          WriteByteString(s);
        case List(items) =>
          MarshalList(items);
        case Dict(entries) =>
          MarshalMap(entries);
      }
    }

    method WriteByteString(s: string)
      modifies this
      ensures buf == old(buf) + EncodeString(s)
    {
      buf := buf + Itoa(|s|);
      buf := buf + ":";
      buf := buf + s;
    }

    method MarshalList(items: seq<Value>)
      modifies this
      ensures buf == old(buf) + ("l" + EncodeItems(items) + "e")
      decreases items
    {
      ghost var before, done := buf, "l";
      buf := buf + "l";
      for i := 0 to |items|
        invariant buf == before + done && done + EncodeItems(items[i..]) == "l" + EncodeItems(items)
      {
        assert items[i..][1..] == items[i + 1..];
        MarshalValue(items[i]);
        Regrouped(before, done, Encode(items[i]), EncodeItems(items[i + 1..]));
        done := done + Encode(items[i]);
      }
      buf := buf + "e";
    }

    /** The keys are already in order: a dictionary is kept as its sorted entries. */
    method MarshalMap(entries: seq<Entry>)
      modifies this
      ensures buf == old(buf) + ("d" + EncodeEntries(entries) + "e")
      decreases entries
    {
      ghost var before, done := buf, "d";
      buf := buf + "d";
      for i := 0 to |entries|
        invariant buf == before + done && done + EncodeEntries(entries[i..]) == "d" + EncodeEntries(entries)
      {
        assert entries[i..][1..] == entries[i + 1..];
        ghost var key, value := EncodeString(entries[i].key), Encode(entries[i].value);
        WriteByteString(entries[i].key);
        MarshalValue(entries[i].value);
        Regrouped(before, done, key, value);
        Regrouped(before, done, key + value, EncodeEntries(entries[i + 1..]));
        done := done + (key + value);
      }
      buf := buf + "e";
    }
  }

  /** Marshal then Unmarshal, with anything after: the value itself exactly when it is at most 64 levels high. */
  method MarshalThenUnmarshal(v: Value, rest: string) returns (r: Result<Value, ParseError>)
    requires Well(v)
    ensures r == if Height(v) <= MAX_DEPTH then Ok(v) else Err(TooDeep)
  {
    var e := new Encoder();
    e.MarshalValue(v);
    assert "" + Encode(v) == Encode(v);
    RoundTrip(v, rest, 0);
    r := Unmarshal(e.buf + rest);
  }
}
