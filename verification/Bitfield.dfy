/** The packed piece bitmap: internal/bitfield/bitfield.go. */
module BitfieldBytes {
  import opened Bytes

  /** 1 << (7 - k): bits are numbered from the most significant one. */
  function Mask(k: nat): (m: byte)
    requires k < 8
  {
    if k == 0 then 0x80 else if k == 1 then 0x40 else if k == 2 then 0x20 else if k == 3 then 0x10
    else if k == 4 then 0x08 else if k == 5 then 0x04 else if k == 6 then 0x02 else 0x01
  }

  /** 0xFF >> spare. */
  function SpareMask(spare: nat): (m: byte)
    requires spare < 8
  {
    if spare == 0 then 0xFF else if spare == 1 then 0x7F else if spare == 2 then 0x3F else if spare == 3 then 0x1F
    else if spare == 4 then 0x0F else if spare == 5 then 0x07 else if spare == 6 then 0x03 else 0x01
  }

  lemma {:induction false} MasksAreShifts(k: nat)
    requires k < 8
    ensures Mask(k) == (1 as byte) << (7 - k) && SpareMask(k) == (0xFF as byte) >> k
  {
  }

  predicate BitOf(x: byte, k: nat)
    requires k < 8
  {
    x & Mask(k) != 0
  }

  lemma {:induction false} SetBit(x: byte, k: nat, j: nat)
    requires k < 8 && j < 8
    ensures BitOf(x | Mask(k), j) == (BitOf(x, j) || j == k)
  {
  }

  lemma {:induction false} ClearBit(x: byte, k: nat, j: nat)
    requires k < 8 && j < 8
    ensures BitOf(x & !Mask(k), j) == (BitOf(x, j) && j != k)
  {
  }

  lemma {:induction false} ZeroHasNoBits(x: byte)
    ensures x == 0 <==> forall k: nat :: k < 8 ==> !BitOf(x, k)
  {
    if forall k: nat :: k < 8 ==> !BitOf(x, k) {
      assert !BitOf(x, 0) && !BitOf(x, 1) && !BitOf(x, 2) && !BitOf(x, 3);
      assert !BitOf(x, 4) && !BitOf(x, 5) && !BitOf(x, 6) && !BitOf(x, 7);
    }
  }

  lemma {:induction false} SpareBits(x: byte, spare: nat)
    requires spare < 8
    ensures x & SpareMask(spare) == 0 <==> forall k: nat :: spare <= k < 8 ==> !BitOf(x, k)
  {
    forall k: nat | spare <= k < 8 ensures x & SpareMask(spare) == 0 ==> !BitOf(x, k) {
    }
    if forall k: nat :: spare <= k < 8 ==> !BitOf(x, k) {
      assert spare <= 0 ==> !BitOf(x, 0);
      assert spare <= 1 ==> !BitOf(x, 1);
      assert spare <= 2 ==> !BitOf(x, 2);
      assert spare <= 3 ==> !BitOf(x, 3);
      assert spare <= 4 ==> !BitOf(x, 4);
      assert spare <= 5 ==> !BitOf(x, 5);
      assert spare <= 6 ==> !BitOf(x, 6);
      assert !BitOf(x, 7);
    }
  }

  /** LeadingZeros8: the first set bit. */
  function LeadingZeros8(x: byte, k: nat): (z: nat)
    requires k <= 8
    ensures k <= z <= 8 && (z < 8 ==> BitOf(x, z)) && forall j: nat :: k <= j < z ==> !BitOf(x, j)
    decreases 8 - k
  {
    if k == 8 || BitOf(x, k) then k else LeadingZeros8(x, k + 1)
  }

  /** OnesCount8 over the first k bits. */
  function Ones(x: byte, k: nat): (n: nat)
    requires k <= 8
  {
    if k == 0 then 0 else Ones(x, k - 1) + if BitOf(x, k - 1) then 1 else 0
  }

  /** The positions the bytes have set. */
  function AllBits(bits: seq<byte>): (s: set<int>) {
    set i: int | 0 <= i < 8 * |bits| && BitOf(bits[i / 8], i % 8)
  }

  function CountBits(bits: seq<byte>): (n: nat) {
    if bits == [] then 0 else CountBits(bits[..|bits| - 1]) + Ones(bits[|bits| - 1], 8)
  }

  function BitsOfByte(x: byte, base: int, k: nat): (s: set<int>)
    requires k <= 8
    ensures forall i :: i in s <==> base <= i < base + k && BitOf(x, i - base)
  {
    if k == 0 then {} else BitsOfByte(x, base, k - 1) + if BitOf(x, k - 1) then {base + k - 1} else {}
  }

  lemma {:induction false} OnesIsSize(x: byte, base: int, k: nat)
    requires k <= 8
    ensures |BitsOfByte(x, base, k)| == Ones(x, k)
  {
    if k > 0 {
      OnesIsSize(x, base, k - 1);
    }
  }

  lemma {:induction false} BitsSplit(bits: seq<byte>)
    requires bits != []
    ensures var m := |bits| - 1; AllBits(bits) == AllBits(bits[..m]) + BitsOfByte(bits[m], 8 * m, 8)
  {
    hide BitOf;
    var m := |bits| - 1;
    var front, last := AllBits(bits[..m]), BitsOfByte(bits[m], 8 * m, 8);
    forall i: int ensures i in AllBits(bits) <==> i in front || i in last {
      if 0 <= i < 8 * m {
        assert bits[..m][i / 8] == bits[i / 8];
      } else if 8 * m <= i < 8 * m + 8 {
        assert i / 8 == m && i % 8 == i - 8 * m;
      }
    }
  }

  /** recount counts exactly the set positions. */
  lemma {:induction false} CountIsSize(bits: seq<byte>)
    ensures |AllBits(bits)| == CountBits(bits)
    decreases |bits|
  {
    if bits != [] {
      hide BitOf, Ones;
      var m := |bits| - 1;
      var front, last := AllBits(bits[..m]), BitsOfByte(bits[m], 8 * m, 8);
      CountIsSize(bits[..m]);
      OnesIsSize(bits[m], 8 * m, 8);
      BitsSplit(bits);
      assert front !! last;
    }
  }

  lemma {:induction false} UpdateBits(bits: seq<byte>, i: nat, b: nat, k: nat, x: byte)
    requires i < 8 * |bits| && b == i / 8 && k == i % 8
    ensures b < |bits|
    ensures x == bits[b] | Mask(k) ==> AllBits(bits[b := x]) == AllBits(bits) + {i}
    ensures x == bits[b] & !Mask(k) ==> AllBits(bits[b := x]) == AllBits(bits) - {i}
  {
    hide BitOf, Mask;
    forall j: int | 0 <= j < 8 * |bits|
      ensures x == bits[b] | Mask(k) ==> (j in AllBits(bits[b := x]) <==> j in AllBits(bits) || j == i)
      ensures x == bits[b] & !Mask(k) ==> (j in AllBits(bits[b := x]) <==> j in AllBits(bits) && j != i)
    {
      UpdateBit(bits, b, k, x, j / 8, j % 8);
      assert j == i <==> j / 8 == b && j % 8 == k;
    }
  }

  lemma {:induction false} UpdateBit(bits: seq<byte>, b: nat, k: nat, x: byte, c: nat, l: nat)
    requires b < |bits| && c < |bits| && k < 8 && l < 8
    ensures x == bits[b] | Mask(k) ==> BitOf(bits[b := x][c], l) == (BitOf(bits[c], l) || (c == b && l == k))
    ensures x == bits[b] & !Mask(k) ==> BitOf(bits[b := x][c], l) == (BitOf(bits[c], l) && !(c == b && l == k))
  {
    hide BitOf, Mask;
    if c == b {
      UpdatedByte(bits[b], k, x, l);
    }
  }

  lemma {:induction false} UpdatedByte(was: byte, k: nat, x: byte, l: nat)
    requires k < 8 && l < 8
    ensures x == was | Mask(k) ==> BitOf(x, l) == (BitOf(was, l) || l == k)
    ensures x == was & !Mask(k) ==> BitOf(x, l) == (BitOf(was, l) && l != k)
  {
    hide BitOf, Mask;
    SetBit(was, k, l);
    ClearBit(was, k, l);
  }

  function ByteLen(n: int): (b: nat) {
    if n <= 0 then 0 else (n + 7) / 8
  }

  lemma {:induction false} DivOf(m: nat, k: nat)
    requires k < 8
    ensures (8 * m + k) / 8 == m && (8 * m + k) % 8 == k
  {
  }

  /** The padding check in FromBytes accepts exactly the bytes with no position at or beyond n. */
  lemma {:induction false} PaddingCheck(raw: seq<byte>, n: nat)
    requires |raw| == ByteLen(n)
    ensures (n % 8 == 0 || raw[|raw| - 1] & SpareMask(n % 8) == 0) <==> forall i :: i in AllBits(raw) ==> i < n
  {
    hide BitOf, SpareMask, Mask;
    if n % 8 != 0 {
      var last := |raw| - 1;
      SpareBits(raw[last], n % 8);
      if forall i :: i in AllBits(raw) ==> i < n {
        forall k: nat | n % 8 <= k < 8 ensures !BitOf(raw[last], k) {
          DivOf(last, k);
          assert 8 * last + k !in AllBits(raw);
        }
      }
    }
  }

  lemma {:induction false} InBytes(i: nat, n: nat)
    requires i < n
    ensures i < 8 * ByteLen(n)
  {
  }

  /** The right width, no position beyond n, and the count of the positions set. */
  ghost predicate Sound(bits: seq<byte>, n: nat, count: nat) {
    && |bits| == ByteLen(n)
    && (forall i :: i in AllBits(bits) ==> i < n)
    && count == |AllBits(bits)|
  }

  lemma {:induction false} SoundAfter(bits: seq<byte>, n: nat, count: nat, i: nat, bits': seq<byte>)
    requires Sound(bits, n, count) && |bits'| == |bits| && i < n
    ensures i !in AllBits(bits) && AllBits(bits') == AllBits(bits) + {i} ==> Sound(bits', n, count + 1)
    ensures i in AllBits(bits) && AllBits(bits') == AllBits(bits) - {i} ==> count > 0 && Sound(bits', n, count - 1)
  {
    hide AllBits, ByteLen;
    if i in AllBits(bits) && AllBits(bits') == AllBits(bits) - {i} {
      assert AllBits(bits') + {i} == AllBits(bits);
    }
  }

  class Bitfield {
    const bits: array<byte>
    const n: nat
    var count: nat

    ghost predicate Valid()
      reads this, bits
    {
      Sound(bits[..], n, count)
    }

    /** The pieces the bitmap has. */
    ghost function Pieces(): (s: set<int>)
      reads this, bits
    {
      AllBits(bits[..])
    }

    constructor (n: nat)
      ensures Valid() && fresh(bits) && this.n == n && Pieces() == {}
    {
      this.n := n;
      count := 0;
      bits := new byte[ByteLen(n)](i => 0);
      new;
      ZeroHasNoBits(0);
    }

    /** FromBytes once the checks have passed. */
    constructor Wrap(raw: seq<byte>, n: nat)
      requires |raw| == ByteLen(n) && forall i :: i in AllBits(raw) ==> i < n
      ensures Valid() && fresh(bits) && this.n == n && bits[..] == raw
    {
      this.n := n;
      count := 0;
      bits := new byte[|raw|](i requires 0 <= i < |raw| => raw[i]);
      new;
      assert bits[..] == raw;
      var c := 0;
      for i := 0 to bits.Length
        invariant c == CountBits(raw[..i]) && bits[..] == raw
      {
        assert raw[..i + 1][..i] == raw[..i];
        c := c + Ones(bits[i], 8);
      }
      assert raw[..|raw|] == raw;
      CountIsSize(raw);
      count := c;
    }

    predicate Has(i: int)
      requires Valid()
      reads this, bits
      ensures Has(i) <==> i in Pieces()
    {
      if i < 0 || i >= n then false else bits[i / 8] & Mask(i % 8) != 0
    }

    lemma {:induction false} WidthIs()
      requires Valid()
      ensures bits.Length == ByteLen(n)
    {
    }

    lemma {:induction false} OnlyPieces()
      requires Valid()
      ensures forall i :: i in Pieces() ==> 0 <= i < n
    {
    }

    method Store(b: nat, x: byte)
      requires b < bits.Length
      modifies bits
      ensures bits[..] == old(bits[..])[b := x]
    {
      bits[b] := x;
    }

    method Set(i: int)
      requires Valid()
      modifies this, bits
      ensures Valid() && Pieces() == if 0 <= i < n then old(Pieces()) + {i} else old(Pieces())
    {
      hide AllBits, Mask, ByteLen, Has, Sound;
      if i < 0 || i >= n || Has(i) {
        assert 0 <= i < n ==> Pieces() == Pieces() + {i};
        return;
      }
      WidthIs();
      InBytes(i, n);
      var b, k := i / 8, i % 8;
      UpdateBits(bits[..], i, b, k, bits[b] | Mask(k));
      ghost var was := bits[..];
      Store(b, bits[b] | Mask(k));
      SoundAfter(was, n, count, i, bits[..]);
      count := count + 1;
    }

    method Clear(i: int)
      requires Valid()
      modifies this, bits
      ensures Valid() && Pieces() == old(Pieces()) - {i}
    {
      hide AllBits, Mask, ByteLen, Has, Sound;
      OnlyPieces();
      if i < 0 || i >= n || !Has(i) {
        return;
      }
      WidthIs();
      InBytes(i, n);
      var b, k := i / 8, i % 8;
      UpdateBits(bits[..], i, b, k, bits[b] & !Mask(k));
      ghost var was := bits[..];
      Store(b, bits[b] & !Mask(k));
      SoundAfter(was, n, count, i, bits[..]);
      count := count - 1;
    }

    /** Complete is constant-time, and means what it says. */
    predicate Complete()
      requires Valid()
      reads this, bits
    {
      n > 0 && count == n
    }

    lemma {:induction false} CompleteMeansAll()
      requires Valid()
      ensures Complete() <==> n > 0 && forall i :: 0 <= i < n ==> i in Pieces()
    {
      BelowSize(Pieces(), n);
    }

    /** Each: the pieces held, each once, in ascending order. */
    method Each() returns (order: seq<int>)
      requires Valid()
      ensures forall i :: i in order <==> i in Pieces()
      ensures Ascending(order)
    {
      hide BitOf, Mask;
      order := [];
      for byteIndex := 0 to bits.Length
        invariant forall i :: i in order <==> i in Pieces() && i < 8 * byteIndex
        invariant Ascending(order)
      {
        var more := EachInByte(bits[byteIndex], 8 * byteIndex);
        assert forall i :: i in more <==> i in Pieces() && 8 * byteIndex <= i < 8 * byteIndex + 8;
        AscendingConcat(order, more, 8 * byteIndex);
        order := order + more;
      }
    }
  }

  ghost predicate Ascending(order: seq<int>) {
    forall k, l :: 0 <= k < l < |order| ==> order[k] < order[l]
  }

  lemma {:induction false} AscendingConcat(a: seq<int>, b: seq<int>, m: int)
    requires Ascending(a) && Ascending(b)
    requires (forall i :: i in a ==> i < m) && (forall i :: i in b ==> m <= i)
    ensures Ascending(a + b)
  {
    assert forall k :: 0 <= k < |a| ==> a[k] in a;
    assert forall k :: 0 <= k < |b| ==> b[k] in b;
  }

  method EachInByte(x0: byte, base: int) returns (order: seq<int>)
    ensures forall i :: i in order <==> base <= i < base + 8 && BitOf(x0, i - base)
    ensures Ascending(order)
  {
    hide BitOf, Mask;
    order := [];
    var x := x0;
    ghost var done := 0;
    while x != 0
      invariant 0 <= done <= 8 && forall j: nat :: j < 8 ==> BitOf(x, j) == (BitOf(x0, j) && j >= done)
      invariant forall i :: i in order <==> base <= i < base + done && BitOf(x0, i - base)
      invariant Ascending(order)
      decreases 8 - done
    {
      ZeroHasNoBits(x);
      var bit := LeadingZeros8(x, 0);
      assert done <= bit;
      forall j: nat | j < 8 ensures BitOf(x & !Mask(bit), j) == (BitOf(x, j) && j != bit) {
        ClearBit(x, bit, j);
      }
      AscendingConcat(order, [base + bit], base + bit);
      order := order + [base + bit];
      x := x & !Mask(bit);
      done := bit + 1;
    }
    ZeroHasNoBits(x);
  }

  lemma {:induction false} BelowSize(s: set<int>, n: nat)
    requires forall i :: i in s ==> 0 <= i < n
    ensures |s| <= n && (|s| == n <==> forall i :: 0 <= i < n ==> i in s)
  {
    if n == 0 {
      if s != {} {
        var x := SomeMember(s);
      }
    } else {
      var t := s - {n - 1};
      BelowSize(t, n - 1);
      if n - 1 in s {
        assert s == t + {n - 1};
      } else {
        assert s == t;
      }
    }
  }

  /** FromBytes: the width and the padding are checked, and nothing else is refused. */
  method FromBytes(raw: seq<byte>, n: nat) returns (r: Option<Bitfield>)
    ensures r.Some? <==> |raw| == ByteLen(n) && forall i :: i in AllBits(raw) ==> i < n
    ensures r.Some? ==> r.value.Valid() && r.value.n == n && r.value.bits[..] == raw && r.value.Pieces() == AllBits(raw)
  {
    if |raw| != ByteLen(n) {
      return None;
    }
    PaddingCheck(raw, n);
    if n % 8 != 0 && raw[|raw| - 1] & SpareMask(n % 8) != 0 {
      return None;
    }
    var b := new Bitfield.Wrap(raw, n);
    r := Some(b);
  }

  /** The wire form determines the bitmap: two of the same width with the same pieces have the same bytes. */
  lemma {:induction false} BytesAreCanonical(a: seq<byte>, b: seq<byte>)
    requires |a| == |b| && AllBits(a) == AllBits(b)
    ensures a == b
  {
    hide BitOf, Mask;
    forall i | 0 <= i < |a| ensures a[i] == b[i] {
      forall k: nat | k < 8 ensures BitOf(a[i], k) == BitOf(b[i], k) {
        DivOf(i, k);
        assert 8 * i + k in AllBits(a) <==> 8 * i + k in AllBits(b);
      }
      SameBits(a[i], b[i]);
    }
  }

  lemma {:induction false} SameBits(x: byte, y: byte)
    requires forall k: nat :: k < 8 ==> BitOf(x, k) == BitOf(y, k)
    ensures x == y
  {
    assert BitOf(x, 0) == BitOf(y, 0) && BitOf(x, 1) == BitOf(y, 1) && BitOf(x, 2) == BitOf(y, 2) && BitOf(x, 3) == BitOf(y, 3);
    assert BitOf(x, 4) == BitOf(y, 4) && BitOf(x, 5) == BitOf(y, 5) && BitOf(x, 6) == BitOf(y, 6) && BitOf(x, 7) == BitOf(y, 7);
  }
}
