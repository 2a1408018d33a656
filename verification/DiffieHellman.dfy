/** The Diffie-Hellman exchange of MSE: internal/mse/dh.go. */
module DiffieHellman {
  import opened Bytes

  const DH_P: nat := 0xFFFFFFFFFFFFFFFFC90FDAA22168C234C4C6628B80DC1CD129024E088A67CC74020BBEA63B139B22514A08798E3404DDEF9519B3CD3A431B302B0A6DF25F14374FE1356D6D51C245E485B576625E7EC6F44C42E9A63A36210000000000090563
  const DH_G: nat := 2
  const DH_BYTE_LEN: nat := 96

  function Pow(b: nat, e: nat): (r: nat) {
    if e == 0 then 1 else b * Pow(b, e - 1)
  }

  lemma {:induction false} PowAdd(b: nat, e: nat, f: nat)
    ensures Pow(b, e + f) == Pow(b, e) * Pow(b, f)
    decreases e
  {
    if e > 0 {
      PowAdd(b, e - 1, f);
      var x, y := Pow(b, e - 1), Pow(b, f);
      assert Pow(b, e) == b * x && Pow(b, e + f) == b * Pow(b, e - 1 + f);
      hide Pow;
      Regroup(b, x, y);
    }
  }

  lemma {:induction false} Regroup(b: int, x: int, y: int)
    ensures b * (x * y) == (b * x) * y
  {
  }

  lemma {:induction false} PowPow(b: nat, e: nat, f: nat)
    ensures e * f >= 0 && Pow(Pow(b, e), f) == Pow(b, e * f)
    decreases f
  {
    if f == 0 {
      assert e * f == 0;
    } else {
      PowPow(b, e, f - 1);
      assert e * f == e + e * (f - 1);
      PowAdd(b, e, e * (f - 1));
    }
  }

  lemma {:induction false} ModUnique(x: nat, m: nat, q: nat, r: nat)
    requires m > 0 && x == m * q + r
    ensures x % m == r % m
  {
    var q', r' := r / m, r % m;
    assert r == m * q' + r';
    assert x == m * (q + q') + r' by { assert m * (q + q') == m * q + m * q'; }
    DivModUnique(x, m, q + q', r');
  }

  lemma {:induction false} Distributes(a: int, x: int, y: int)
    ensures a * (x + y) == a * x + a * y
  {
  }

  lemma {:induction false} Swaps(a: int, m: int, q: int)
    ensures a * (m * q) == m * (a * q)
  {
  }

  lemma {:induction false} NotNegative(a: nat, b: nat)
    ensures a * b >= 0
  {
  }

  lemma {:induction false} MulMod(a: nat, b: nat, m: nat)
    requires m > 0
    ensures (a * (b % m)) % m == (a * b) % m
  {
    var q, r := b / m, b % m;
    Distributes(a, m * q, r);
    Swaps(a, m, q);
    NotNegative(a, q);
    NotNegative(a, r);
    ModUnique(a * b, m, a * q, a * r);
  }

  /** Reducing the base first does not change a power modulo m. */
  lemma {:induction false} PowMod(b: nat, e: nat, m: nat)
    requires m > 0
    ensures Pow(b % m, e) % m == Pow(b, e) % m
  {
    if e > 0 {
      PowMod(b, e - 1, m);
      var x, y := Pow(b % m, e - 1), Pow(b, e - 1);
      MulMod(b % m, x, m);
      MulMod(b % m, y, m);
      assert ((b % m) * x) % m == ((b % m) * y) % m;
      MulMod(y, b, m);
      assert (b % m) * y == y * (b % m) && y * b == b * y;
    }
  }

  /** The exchange commutes: both sides raise the other's public value to the same secret. */
  lemma {:induction false} Commutes(g: nat, a: nat, b: nat, m: nat)
    requires m > 0
    ensures Pow(Pow(g, a) % m, b) % m == Pow(Pow(g, b) % m, a) % m
  {
    PowMod(Pow(g, a), b, m);
    PowMod(Pow(g, b), a, m);
    PowPow(g, a, b);
    PowPow(g, b, a);
    assert a * b == b * a;
  }

  // ---------- fixed-width encoding ----------

  function Pack(b7: bool, b6: bool, b5: bool, b4: bool, b3: bool, b2: bool, b1: bool, b0: bool): (b: byte) {
    (if b7 then 0x80 else 0) | (if b6 then 0x40 else 0) | (if b5 then 0x20 else 0) | (if b4 then 0x10 else 0)
    | (if b3 then 0x08 else 0) | (if b2 then 0x04 else 0) | (if b1 then 0x02 else 0) | (if b0 then 0x01 else 0)
  }

  function Half(n: nat): (h: nat) {
    n / 2
  }

  predicate Odd(n: nat) {
    n % 2 == 1
  }

  /** A number below 256 as a byte, bit by bit, and back. */
  function ToByte(n: nat): (b: byte)
    requires n < 256
  {
    var n1 := Half(n);
    var n2 := Half(n1);
    var n3 := Half(n2);
    var n4 := Half(n3);
    var n5 := Half(n4);
    var n6 := Half(n5);
    var n7 := Half(n6);
    Pack(Odd(n7), Odd(n6), Odd(n5), Odd(n4), Odd(n3), Odd(n2), Odd(n1), Odd(n))
  }

  function Unit(set_: bool, weight: nat): (n: nat)
    ensures n <= weight
  {
    if set_ then weight else 0
  }

  predicate Sets(b: byte, mask: byte) {
    b & mask != 0
  }

  function OfByte(b: byte): (n: nat)
    ensures n < 256
  {
    hide Unit, Sets;
    Unit(Sets(b, 0x80), 128) + Unit(Sets(b, 0x40), 64) + Unit(Sets(b, 0x20), 32) + Unit(Sets(b, 0x10), 16)
    + Unit(Sets(b, 0x08), 8) + Unit(Sets(b, 0x04), 4) + Unit(Sets(b, 0x02), 2) + Unit(Sets(b, 0x01), 1)
  }

  lemma {:induction false} Unpacked(b7: bool, b6: bool, b5: bool, b4: bool, b3: bool, b2: bool, b1: bool, b0: bool)
    ensures OfByte(Pack(b7, b6, b5, b4, b3, b2, b1, b0))
         == Unit(b7, 128) + Unit(b6, 64) + Unit(b5, 32) + Unit(b4, 16) + Unit(b3, 8) + Unit(b2, 4) + Unit(b1, 2) + Unit(b0, 1)
  {
    hide Unit;
    var b := Pack(b7, b6, b5, b4, b3, b2, b1, b0);
    assert (b & 0x80 != 0) == b7 && (b & 0x40 != 0) == b6 && (b & 0x20 != 0) == b5 && (b & 0x10 != 0) == b4;
    assert (b & 0x08 != 0) == b3 && (b & 0x04 != 0) == b2 && (b & 0x02 != 0) == b1 && (b & 0x01 != 0) == b0;
  }

  /** One binary digit. */
  lemma {:induction false} Halved(n: nat)
    ensures n == 2 * Half(n) + Unit(Odd(n), 1)
  {
  }

  lemma {:induction false} Weighted(b7: bool, b6: bool, b5: bool, b4: bool, b3: bool, b2: bool, b1: bool)
    ensures Unit(b7, 128) == 128 * Unit(b7, 1) && Unit(b6, 64) == 64 * Unit(b6, 1) && Unit(b5, 32) == 32 * Unit(b5, 1)
    ensures Unit(b4, 16) == 16 * Unit(b4, 1) && Unit(b3, 8) == 8 * Unit(b3, 1) && Unit(b2, 4) == 4 * Unit(b2, 1) && Unit(b1, 2) == 2 * Unit(b1, 1)
  {
  }

  /** The binary digits of a number below 256 add up to it. */
  lemma {:induction false} DigitsAddUp(n: nat, n1: nat, n2: nat, n3: nat, n4: nat, n5: nat, n6: nat, n7: nat)
    requires n < 256 && n1 == Half(n) && n2 == Half(n1) && n3 == Half(n2) && n4 == Half(n3) && n5 == Half(n4) && n6 == Half(n5) && n7 == Half(n6)
    ensures n == Unit(Odd(n7), 128) + Unit(Odd(n6), 64) + Unit(Odd(n5), 32) + Unit(Odd(n4), 16) + Unit(Odd(n3), 8)
               + Unit(Odd(n2), 4) + Unit(Odd(n1), 2) + Unit(Odd(n), 1)
  {
    hide Unit, Half, Odd;
    Halved(n);
    Halved(n1);
    Halved(n2);
    Halved(n3);
    Halved(n4);
    Halved(n5);
    Halved(n6);
    Halved(n7);
    Weighted(Odd(n7), Odd(n6), Odd(n5), Odd(n4), Odd(n3), Odd(n2), Odd(n1));
    assert n >= 256 * Half(n7);
  }

  lemma {:induction false} ByteRoundTrip(n: nat)
    requires n < 256
    ensures OfByte(ToByte(n)) == n
  {
    hide Pack, OfByte, Unit, Half, Odd;
    var n1 := Half(n);
    var n2 := Half(n1);
    var n3 := Half(n2);
    var n4 := Half(n3);
    var n5 := Half(n4);
    var n6 := Half(n5);
    var n7 := Half(n6);
    DigitsAddUp(n, n1, n2, n3, n4, n5, n6, n7);
    Unpacked(Odd(n7), Odd(n6), Odd(n5), Odd(n4), Odd(n3), Odd(n2), Odd(n1), Odd(n));
  }

  /** The `width` low-order base-256 digits of n, most significant first. */
  function BigEndian(n: nat, width: nat): (bytes: seq<byte>)
    ensures |bytes| == width
    decreases width
  {
    if width == 0 then [] else BigEndian(n / 256, width - 1) + [ToByte(n % 256)]
  }

  function FromBigEndian(bytes: seq<byte>): (n: nat) {
    if bytes == [] then 0 else 256 * FromBigEndian(bytes[..|bytes| - 1]) + OfByte(bytes[|bytes| - 1])
  }

  lemma {:induction false} DigitFits(n: nat, p: nat)
    requires n < 256 * p
    ensures n / 256 < p && n == 256 * (n / 256) + n % 256
  {
  }

  lemma {:induction false} BigEndianRoundTrip(n: nat, width: nat)
    requires n < Pow(256, width)
    ensures FromBigEndian(BigEndian(n, width)) == n
    decreases width
  {
    if width > 0 {
      var bytes := BigEndian(n, width);
      hide ToByte, OfByte;
      DigitFits(n, Pow(256, width - 1));
      BigEndianRoundTrip(n / 256, width - 1);
      assert bytes[..width - 1] == BigEndian(n / 256, width - 1);
      ByteRoundTrip(n % 256);
    }
  }

  lemma {:induction false} PowDouble(e: nat)
    ensures Pow(256, 2 * e) == Pow(256, e) * Pow(256, e)
  {
    PowAdd(256, e, e);
    assert 2 * e == e + e;
  }

  lemma {:induction false} PrimeFits()
    ensures DH_P < Pow(256, DH_BYTE_LEN)
  {
    assert Pow(256, 1) == 256 * Pow(256, 0);
    assert Pow(256, 2) == 256 * Pow(256, 1);
    assert Pow(256, 3) == 0x1_000000;
    PowDouble(3);
    PowDouble(6);
    PowDouble(12);
    PowDouble(24);
    PowDouble(48);
  }

  // ---------- the exchange ----------

  function PublicValue(priv: nat): (pub: nat)
    ensures pub < DH_P
  {
    Pow(DH_G, priv) % DH_P
  }

  function EncodeFixed(n: nat): (bytes: seq<byte>)
    ensures |bytes| == DH_BYTE_LEN
  {
    BigEndian(n, DH_BYTE_LEN)
  }

  /** What goes on the wire for a private value. */
  function PublicBytes(priv: nat): (bytes: seq<byte>)
    ensures |bytes| == DH_BYTE_LEN
  {
    EncodeFixed(PublicValue(priv))
  }

  function SharedSecret(priv: nat, peerBytes: seq<byte>): (s: seq<byte>)
    ensures |s| == DH_BYTE_LEN
  {
    EncodeFixed(Pow(FromBigEndian(peerBytes), priv) % DH_P)
  }

  /** Both sides compute the same 96-byte secret from what the other put on the wire. */
  lemma {:induction false} SecretsAgree(a: nat, b: nat)
    ensures SharedSecret(a, PublicBytes(b)) == SharedSecret(b, PublicBytes(a))
  {
    PrimeFits();
    hide Pow, BigEndian, FromBigEndian;
    BigEndianRoundTrip(PublicValue(a), DH_BYTE_LEN);
    BigEndianRoundTrip(PublicValue(b), DH_BYTE_LEN);
    Commutes(DH_G, a, b, DH_P);
  }

  /** On the wire is 2 to the private value; the secret is that, unreduced, to the other private value. All modulo the prime. */
  lemma {:induction false} SecretIsPower(a: nat, b: nat)
    ensures FromBigEndian(PublicBytes(a)) == Pow(2, a) % DH_P
    ensures FromBigEndian(SharedSecret(a, PublicBytes(b))) == Pow(Pow(2, b), a) % DH_P
  {
    PrimeFits();
    hide Pow, BigEndian, FromBigEndian;
    BigEndianRoundTrip(PublicValue(a), DH_BYTE_LEN);
    BigEndianRoundTrip(PublicValue(b), DH_BYTE_LEN);
    PowMod(Pow(2, b), a, DH_P);
    BigEndianRoundTrip(Pow(Pow(2, b), a) % DH_P, DH_BYTE_LEN);
  }
}
