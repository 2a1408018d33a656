/** The MSE/PE handshake: internal/mse (handshake.go, sync.go, hash.go, conn.go's ciphers). */
module Mse {
  import opened Bytes

  const MAX_PAD := 512
  const VC_LEN := 8
  const MAX_IA := 65535
  const HASH_LEN := 20
  const BURN := 1024
  const CRYPTO_PLAINTEXT := 1
  const CRYPTO_RC4 := 2

  /** HASH is any function to 20 bytes; RC4 is any keystream: the byte at each position, per key. */
  datatype Suite = Suite(hash: seq<byte> -> seq<byte>, keystream: (seq<byte>, nat) -> byte)

  function Hash20(u: Suite, input: seq<byte>): (d: seq<byte>)
    ensures |d| == HASH_LEN
  {
    var d := u.hash(input);
    if |d| == HASH_LEN then d else Zeros(HASH_LEN)
  }

  const REQ1: seq<byte> := [0x72, 0x65, 0x71, 0x31]
  const REQ2: seq<byte> := [0x72, 0x65, 0x71, 0x32]
  const REQ3: seq<byte> := [0x72, 0x65, 0x71, 0x33]
  const KEY_A: seq<byte> := [0x6b, 0x65, 0x79, 0x41]
  const KEY_B: seq<byte> := [0x6b, 0x65, 0x79, 0x42]

  function Req1(u: Suite, s: seq<byte>): (d: seq<byte>)
    ensures |d| == HASH_LEN
  {
    Hash20(u, REQ1 + s)
  }

  function XorBytes(a: seq<byte>, b: seq<byte>): (c: seq<byte>)
    requires |a| == |b|
    ensures |c| == |a|
  {
    if a == [] then [] else [a[0] ^ b[0]] + XorBytes(a[1..], b[1..])
  }

  function Req2Xor3(u: Suite, skey: seq<byte>, s: seq<byte>): (d: seq<byte>)
    ensures |d| == HASH_LEN
  {
    XorBytes(Hash20(u, REQ2 + skey), Hash20(u, REQ3 + s))
  }

  function KeyA(u: Suite, s: seq<byte>, skey: seq<byte>): (k: seq<byte>) {
    Hash20(u, KEY_A + s + skey)
  }

  function KeyB(u: Suite, s: seq<byte>, skey: seq<byte>): (k: seq<byte>) {
    Hash20(u, KEY_B + s + skey)
  }

  // ---------- the stream cipher ----------

  function XorByte(x: byte, k: byte): (y: byte) {
    x ^ k
  }

  /** XORKeyStream from keystream position pos on. */
  function Crypt(u: Suite, key: seq<byte>, pos: nat, data: seq<byte>): (out: seq<byte>)
    ensures |out| == |data|
    decreases data
  {
    if data == [] then [] else [XorByte(data[0], u.keystream(key, pos))] + Crypt(u, key, pos + 1, data[1..])
  }

  lemma {:induction false} CryptTwice(u: Suite, key: seq<byte>, pos: nat, data: seq<byte>)
    ensures Crypt(u, key, pos, Crypt(u, key, pos, data)) == data
    decreases data
  {
    hide XorByte;
    if data != [] {
      var out := Crypt(u, key, pos, data);
      CryptTwice(u, key, pos + 1, data[1..]);
      XorTwice(data[0], u.keystream(key, pos));
      assert out[1..] == Crypt(u, key, pos + 1, data[1..]);
    }
  }

  lemma {:induction false} XorTwice(x: byte, k: byte)
    ensures XorByte(XorByte(x, k), k) == x
  {
  }

  lemma {:induction false} CryptSplit(u: Suite, key: seq<byte>, pos: nat, a: seq<byte>, b: seq<byte>)
    ensures Crypt(u, key, pos, a + b) == Crypt(u, key, pos, a) + Crypt(u, key, pos + |a|, b)
    decreases a
  {
    hide XorByte;
    if a == [] {
      assert a + b == b;
    } else {
      CryptSplit(u, key, pos + 1, a[1..], b);
      assert (a + b)[1..] == a[1..] + b;
    }
  }

  /** Any stretch of the encrypted stream decrypts on its own at its own position. */
  lemma {:induction false} DecryptSlice(u: Suite, key: seq<byte>, pos: nat, data: seq<byte>, i: nat, j: nat)
    requires i <= j <= |data|
    ensures Crypt(u, key, pos + i, Crypt(u, key, pos, data)[i..j]) == data[i..j]
  {
    var a, b, c := data[..i], data[i..j], data[j..];
    assert data == a + b + c;
    CryptSplit(u, key, pos, a + b, c);
    CryptSplit(u, key, pos, a, b);
    assert Crypt(u, key, pos, data)[i..j] == Crypt(u, key, pos + i, b);
    CryptTwice(u, key, pos + i, b);
  }

  /** conn.go's newCipher: an RC4 stream with its first 1024 bytes burnt. */
  class Cipher {
    const key: seq<byte>
    var pos: nat

    constructor (key: seq<byte>)
      ensures this.key == key && pos == BURN
    {
      this.key := key;
      pos := BURN;
    }

    method XorKeyStream(u: Suite, data: seq<byte>) returns (out: seq<byte>)
      modifies this
      ensures out == Crypt(u, key, old(pos), data) && pos == old(pos) + |data|
    {
      out := [];
      ghost var start := pos;
      for i := 0 to |data|
        invariant pos == start + i
        invariant out + Crypt(u, key, pos, data[i..]) == Crypt(u, key, start, data)
      {
        assert data[i..][0] == data[i] && data[i..][1..] == data[i + 1..];
        out := out + [XorByte(data[i], u.keystream(key, pos))];
        pos := pos + 1;
      }
    }
  }

  // ---------- one end of the connection ----------

  /**
   * One party's end: all the bytes the peer has delivered, how far they have been read, and what has
   * been written. Reading past what was delivered is the blocked read.
   */
  class Wire {
    const inbox: seq<byte>
    var taken: nat
    var outbox: seq<byte>

    ghost predicate Valid()
      reads this
    {
      taken <= |inbox|
    }

    function Rest(): (rest: seq<byte>)
      requires Valid()
      reads this
    {
      inbox[taken..]
    }

    constructor (inbox: seq<byte>)
      ensures Valid() && this.inbox == inbox && taken == 0 && outbox == []
    {
      this.inbox := inbox;
      taken := 0;
      outbox := [];
    }

    method Write(data: seq<byte>)
      requires Valid()
      modifies this
      ensures Valid() && taken == old(taken) && outbox == old(outbox) + data
    {
      outbox := outbox + data;
    }

    method ReadFull(n: nat) returns (data: Option<seq<byte>>)
      requires Valid()
      modifies this
      ensures Valid() && outbox == old(outbox)
      ensures data.Some? <==> n <= |old(Rest())|
      ensures data.Some? ==> data.value == old(Rest())[..n] && Rest() == old(Rest())[n..] && taken == old(taken) + n
    {
      if taken + n > |inbox| {
        taken := |inbox|;
        return None;
      }
      data := Some(inbox[taken..taken + n]);
      taken := taken + n;
    }
  }

  // ---------- finding a marker ----------

  datatype Search = Found(end: nat) | NotFound | Starved

  /** The marker ends at position n of the stream. */
  predicate EndsAt(stream: seq<byte>, marker: seq<byte>, n: int) {
    |marker| <= n <= |stream| && stream[n - |marker|..n] == marker
  }

  /** The first place at which the marker ends among the first `window` bytes, having looked at n. */
  function FindFrom(stream: seq<byte>, marker: seq<byte>, window: nat, n: nat): (r: Search)
    ensures r.Found? ==> n < r.end <= window && EndsAt(stream, marker, r.end)
    decreases window - n
  {
    if n >= window then NotFound
    else if n >= |stream| then Starved
    else if EndsAt(stream, marker, n + 1) then Found(n + 1)
    else FindFrom(stream, marker, window, n + 1)
  }

  /** readUntil: a rolling buffer of the last |marker| bytes, one byte at a time. */
  method ReadUntil(w: Wire, marker: seq<byte>, window: nat) returns (r: Search)
    requires w.Valid() && |marker| > 0
    modifies w
    ensures w.Valid() && w.outbox == old(w.outbox)
    ensures r == FindFrom(old(w.Rest()), marker, window, 0)
    ensures r.Found? ==> w.Rest() == old(w.Rest())[r.end..] && w.taken == old(w.taken) + r.end
  {
    ghost var stream := w.Rest();
    var buf: seq<byte> := [];
    for read := 0 to window
      invariant w.Valid() && w.outbox == old(w.outbox) && w.taken == old(w.taken) + read
      invariant read <= |stream| && w.Rest() == stream[read..]
      invariant buf == stream[if read < |marker| then 0 else read - |marker|..read]
      invariant FindFrom(stream, marker, window, read) == FindFrom(stream, marker, window, 0)
    {
      var one := w.ReadFull(1);
      if one.None? {
        return Starved;
      }
      if |buf| == |marker| {
        buf := buf[1..];
      }
      buf := buf + one.value;
      assert buf == stream[if read + 1 < |marker| then 0 else read + 1 - |marker|..read + 1];
      if |buf| == |marker| && buf == marker {
        return Found(read + 1);
      }
    }
    r := NotFound;
  }

  /** With no earlier match, the search ends exactly after pad and marker, or starves before it. */
  ghost predicate NoEarlyMatch(pad: seq<byte>, marker: seq<byte>) {
    forall n :: 0 <= n < |pad| + |marker| ==> !EndsAt(pad + marker, marker, n)
  }

  lemma {:induction false} FindSteps(stream: seq<byte>, marker: seq<byte>, window: nat, n: nat, end: nat)
    requires n <= end <= window
    requires forall k :: n < k < end ==> k <= |stream| && !EndsAt(stream, marker, k)
    ensures n < end <= |stream| && EndsAt(stream, marker, end) ==> FindFrom(stream, marker, window, n) == Found(end)
    ensures end == |stream| + 1 && n < end ==> FindFrom(stream, marker, window, n) == Starved
    decreases end - n
  {
    if n + 1 < end {
      FindSteps(stream, marker, window, n + 1, end);
    }
  }

  /** The 512 bytes of padding plus the marker always fit the search window. */
  lemma {:induction false} MarkerIsFound(pad: seq<byte>, marker: seq<byte>, delivered: seq<byte>, all: seq<byte>)
    requires |pad| <= MAX_PAD && NoEarlyMatch(pad, marker) && |marker| > 0
    requires delivered <= all && pad + marker <= all
    ensures FindFrom(delivered, marker, MAX_PAD + |marker|, 0)
         == if |delivered| >= |pad| + |marker| then Found(|pad| + |marker|) else Starved
  {
    var end := |pad| + |marker|;
    forall k | 0 < k < end && k <= |delivered| ensures !EndsAt(delivered, marker, k) {
      assert !EndsAt(pad + marker, marker, k);
      if k >= |marker| {
        assert delivered[k - |marker|..k] == all[k - |marker|..k] == (pad + marker)[k - |marker|..k];
      }
    }
    if |delivered| >= end {
      assert delivered[|pad|..end] == all[|pad|..end] == (pad + marker)[|pad|..end] == marker;
      FindSteps(delivered, marker, MAX_PAD + |marker|, 0, end);
    } else {
      FindSteps(delivered, marker, MAX_PAD + |marker|, 0, |delivered| + 1);
    }
  }
}
