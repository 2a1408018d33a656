/** Kademlia identifiers and the XOR metric: internal/dht/id.go. */
module DhtId {
  import opened Bytes
  import opened BitfieldBytes

  const ID_LEN := 20

  type NodeId = seq<byte>

  predicate IsId(id: NodeId) {
    |id| == ID_LEN
  }

  function XorOf(a: NodeId, b: NodeId): (d: NodeId)
    requires |a| == |b|
    ensures |d| == |a|
  {
    if a == [] then [] else [a[0] ^ b[0]] + XorOf(a[1..], b[1..])
  }

  method Xor(a: NodeId, b: NodeId) returns (d: NodeId)
    requires |a| == |b|
    ensures d == XorOf(a, b)
  {
    d := [];
    for i := 0 to |a|
      invariant d + XorOf(a[i..], b[i..]) == XorOf(a, b)
    {
      assert a[i..][1..] == a[i + 1..] && b[i..][1..] == b[i + 1..];
      d := d + [a[i] ^ b[i]];
    }
  }

  /** The ids as big-endian numbers, compared at the first byte that differs. */
  predicate IdLess(a: NodeId, b: NodeId)
    requires |a| == |b|
  {
    a != [] && (a[0] < b[0] || (a[0] == b[0] && IdLess(a[1..], b[1..])))
  }

  method Less(a: NodeId, b: NodeId) returns (less: bool)
    requires |a| == |b|
    ensures less == IdLess(a, b)
  {
    for i := 0 to |a|
      invariant IdLess(a[i..], b[i..]) == IdLess(a, b)
    {
      assert a[i..][1..] == a[i + 1..] && b[i..][1..] == b[i + 1..];
      if a[i] != b[i] {
        return a[i] < b[i];
      }
    }
    less := false;
  }

  lemma {:induction false} IdLessIsTotal(a: NodeId, b: NodeId)
    requires |a| == |b|
    ensures IdLess(a, b) || a == b || IdLess(b, a)
    ensures !(IdLess(a, b) && IdLess(b, a)) && !IdLess(a, a)
    decreases |a|
  {
    if a != [] {
      IdLessIsTotal(a[1..], b[1..]);
      assert a == [a[0]] + a[1..] && b == [b[0]] + b[1..];
    }
  }

  lemma {:induction false} IdLessIsTransitive(a: NodeId, b: NodeId, c: NodeId)
    requires |a| == |b| == |c| && IdLess(a, b) && IdLess(b, c)
    ensures IdLess(a, c)
    decreases |a|
  {
    if a[0] == b[0] == c[0] {
      IdLessIsTransitive(a[1..], b[1..], c[1..]);
    } else {
      ByteOrder(a[0], b[0], c[0]);
    }
  }

  lemma {:induction false} ByteOrder(x: byte, y: byte, z: byte)
    requires x <= y && y <= z && !(x == y && y == z)
    ensures x < z
  {
  }

  lemma {:induction false} XorTwice(t: NodeId, a: NodeId)
    requires |t| == |a|
    ensures XorOf(t, XorOf(t, a)) == a
    decreases |t|
  {
    if t != [] {
      var x := XorOf(t, a);
      assert x[0] == t[0] ^ a[0] && x[1..] == XorOf(t[1..], a[1..]);
      XorTwice(t[1..], a[1..]);
      ByteXorTwice(t[0], a[0]);
      assert a == [a[0]] + a[1..];
    }
  }

  lemma {:induction false} ByteXorTwice(t: byte, a: byte)
    ensures t ^ (t ^ a) == a
  {
  }

  /** Nothing else is at the same distance. */
  lemma {:induction false} XorInjective(t: NodeId, a: NodeId, b: NodeId)
    requires |t| == |a| == |b| && XorOf(t, a) == XorOf(t, b)
    ensures a == b
  {
    XorTwice(t, a);
    XorTwice(t, b);
  }

  /** a is strictly nearer to the target than b. */
  predicate Nearer(target: NodeId, a: NodeId, b: NodeId) {
    |target| == |a| == |b| && IdLess(XorOf(target, a), XorOf(target, b))
  }

  lemma {:induction false} NearerIsTotal(target: NodeId, a: NodeId, b: NodeId)
    requires |target| == |a| == |b|
    ensures Nearer(target, a, b) || a == b || Nearer(target, b, a)
    ensures !(Nearer(target, a, b) && Nearer(target, b, a)) && !Nearer(target, a, a)
  {
    IdLessIsTotal(XorOf(target, a), XorOf(target, b));
    IdLessIsTotal(XorOf(target, a), XorOf(target, a));
    if XorOf(target, a) == XorOf(target, b) {
      XorInjective(target, a, b);
    }
  }

  lemma {:induction false} NearerIsTransitive(target: NodeId, a: NodeId, b: NodeId, c: NodeId)
    requires Nearer(target, a, b) && Nearer(target, b, c)
    ensures Nearer(target, a, c)
  {
    IdLessIsTransitive(XorOf(target, a), XorOf(target, b), XorOf(target, c));
  }

  // ---------- common prefixes ----------

  /** How many leading bits two ids share. */
  function PrefixLen(a: NodeId, b: NodeId): (n: nat)
    requires |a| == |b|
    ensures n <= 8 * |a| && (n == 8 * |a| <==> a == b)
    decreases |a|
  {
    if a == [] then 0
    else if a[0] ^ b[0] == 0 then
      SameByte(a, b);
      8 + PrefixLen(a[1..], b[1..])
    else
      SomeBit(a[0], b[0]);
      LeadingZeros8(a[0] ^ b[0], 0)
  }

  lemma {:induction false} SameByte(a: NodeId, b: NodeId)
    requires a != [] && |a| == |b| && a[0] ^ b[0] == 0
    ensures a[0] == b[0] && (a == b <==> a[1..] == b[1..])
  {
    XorZero(a[0], b[0]);
    assert a == [a[0]] + a[1..] && b == [b[0]] + b[1..];
  }

  lemma {:induction false} XorZero(x: byte, y: byte)
    ensures x ^ y == 0 <==> x == y
  {
    assert x ^ (x ^ y) == y;
  }

  lemma {:induction false} SomeBit(x: byte, y: byte)
    requires x ^ y != 0
    ensures LeadingZeros8(x ^ y, 0) < 8 && x != y
  {
    XorZero(x, y);
    ZeroHasNoBits(x ^ y);
  }

  /** commonPrefixLen, byte by byte and then bit by bit. */
  method CommonPrefixLen(a: NodeId, b: NodeId) returns (n: nat)
    requires |a| == |b|
    ensures n == PrefixLen(a, b)
  {
    hide LeadingZeros8;
    for i := 0 to |a|
      invariant PrefixLen(a, b) == 8 * i + PrefixLen(a[i..], b[i..])
    {
      assert a[i..][1..] == a[i + 1..] && b[i..][1..] == b[i + 1..];
      var x := a[i] ^ b[i];
      if x == 0 {
        continue;
      }
      var bit := FirstBit(x);
      return 8 * i + bit;
    }
    n := 8 * |a|;
  }

  method FirstBit(x: byte) returns (k: nat)
    requires x != 0
    ensures k == LeadingZeros8(x, 0) && k < 8
  {
    ZeroHasNoBits(x);
    k := 0;
    while !BitOf(x, k)
      invariant k < 8 && LeadingZeros8(x, k) == LeadingZeros8(x, 0) && LeadingZeros8(x, 0) < 8
      decreases 8 - k
    {
      k := k + 1;
    }
  }

  lemma {:induction false} PrefixLenSymmetric(a: NodeId, b: NodeId)
    requires |a| == |b|
    ensures PrefixLen(a, b) == PrefixLen(b, a)
    decreases |a|
  {
    if a != [] {
      assert a[0] ^ b[0] == b[0] ^ a[0];
      PrefixLenSymmetric(a[1..], b[1..]);
    }
  }

  /** Sharing more leading bits with the target means being nearer to it: buckets are distance rings. */
  lemma {:induction false} LongerPrefixIsNearer(t: NodeId, a: NodeId, b: NodeId)
    requires |t| == |a| == |b| && PrefixLen(t, a) > PrefixLen(t, b)
    ensures Nearer(t, a, b)
    decreases |t|
  {
    hide LeadingZeros8, BitOf;
    if t[0] ^ a[0] == 0 && t[0] ^ b[0] == 0 {
      LongerPrefixIsNearer(t[1..], a[1..], b[1..]);
      SameHead(t, a, b);
    } else {
      if t[0] ^ a[0] == 0 {
        NotBelowZero(t[0] ^ b[0]);
      } else {
        SomeBit(t[0], a[0]);
        PrefixOfByte(t, b);
        MoreZerosIsSmaller(t[0] ^ a[0], t[0] ^ b[0]);
      }
      SmallerHead(t, a, b);
    }
  }

  lemma {:induction false} SameHead(t: NodeId, a: NodeId, b: NodeId)
    requires t != [] && |t| == |a| == |b| && t[0] ^ a[0] == t[0] ^ b[0] && Nearer(t[1..], a[1..], b[1..])
    ensures Nearer(t, a, b)
  {
    var x, y := XorOf(t, a), XorOf(t, b);
    assert x[0] == t[0] ^ a[0] && y[0] == t[0] ^ b[0];
    assert x[1..] == XorOf(t[1..], a[1..]) && y[1..] == XorOf(t[1..], b[1..]);
  }

  lemma {:induction false} SmallerHead(t: NodeId, a: NodeId, b: NodeId)
    requires t != [] && |t| == |a| == |b| && t[0] ^ a[0] < t[0] ^ b[0]
    ensures Nearer(t, a, b)
  {
    var x, y := XorOf(t, a), XorOf(t, b);
    assert x[0] == t[0] ^ a[0] && y[0] == t[0] ^ b[0];
  }

  lemma {:induction false} NotBelowZero(x: byte)
    ensures x != 0 ==> 0 < x
  {
  }

  lemma {:induction false} PrefixOfByte(t: NodeId, b: NodeId)
    requires |t| == |b| && t != [] && PrefixLen(t, b) < 8
    ensures t[0] ^ b[0] != 0 && PrefixLen(t, b) == LeadingZeros8(t[0] ^ b[0], 0)
  {
  }

  lemma {:induction false} MoreZerosIsSmaller(x: byte, y: byte)
    requires LeadingZeros8(x, 0) > LeadingZeros8(y, 0)
    ensures x < y
  {
    var k := LeadingZeros8(y, 0);
    assert BitOf(y, k) && forall j: nat :: j <= k ==> !BitOf(x, j);
    HighBitWins(x, y, k);
  }

  lemma {:induction false} HighBitWins(x: byte, y: byte, k: nat)
    requires k < 8 && BitOf(y, k) && forall j: nat :: j <= k ==> !BitOf(x, j)
    ensures x < y
  {
    assert !BitOf(x, 0);
    assert k >= 1 ==> !BitOf(x, 1);
    assert k >= 2 ==> !BitOf(x, 2);
    assert k >= 3 ==> !BitOf(x, 3);
    assert k >= 4 ==> !BitOf(x, 4);
    assert k >= 5 ==> !BitOf(x, 5);
    assert k >= 6 ==> !BitOf(x, 6);
    assert k >= 7 ==> !BitOf(x, 7);
  }
}
