/** Bytes, digests, and the integer helpers that the Go sources get from the language. */
module Bytes {
  type byte = bv8

  const DIGEST_SIZE := 32
  const SHA1_SIZE := 20

  function Zeros(n: nat): (r: seq<byte>)
    ensures |r| == n
  {
    seq(n, i => 0)
  }

  /** A SHA-256 digest, and a SHA-1 digest. */
  datatype Hash = Hash(bytes: seq<byte>)
  datatype Hash160 = Hash160(bytes: seq<byte>)

  /**
   * SHA-256 as the merkle tree uses it: on the raw bytes of a block, and on two digests laid side
   * by side. Both hash functions stay abstract: every statement is about an arbitrary pair of them.
   */
  datatype Sha256 = Sha256(leaf: seq<byte> -> Hash, node: (Hash, Hash) -> Hash)
  type Sha1 = seq<byte> -> Hash160

  predicate Sized(d: Hash) {
    |d.bytes| == DIGEST_SIZE
  }

  /** The two uses are one function of bytes, with 32-byte results. */
  ghost predicate IsSha256(h: Sha256) {
    && (forall x :: Sized(h.leaf(x)))
    && (forall l, r :: h.node(l, r) == h.leaf(l.bytes + r.bytes))
  }

  ghost predicate IsSha1(h: Sha1) {
    forall x :: |h(x).bytes| == SHA1_SIZE
  }

  const ZERO_HASH := Hash(Zeros(DIGEST_SIZE))

  /** Two distinct inputs of SHA-256, both blocks or both pairs of digests. */
  datatype Collision = OfBlocks(x: seq<byte>, y: seq<byte>) | OfNodes(l: Hash, r: Hash, l': Hash, r': Hash)

  ghost predicate Collides(h: Sha256, c: Collision) {
    match c
    case OfBlocks(x, y) => x != y && h.leaf(x) == h.leaf(y)
    case OfNodes(l, r, l', r') => (l, r) != (l', r') && h.node(l, r) == h.node(l', r')
  }

  datatype Option<+T> = None | Some(value: T)
  datatype Result<+T, +E> = Ok(value: T) | Err(error: E)

  function Min(a: int, b: int): (r: int)
  {
    if a <= b then a else b
  }

  lemma {:induction false} SomeMember<T>(s: set<T>) returns (x: T)
    requires s != {}
    ensures x in s
  {
    x :| x in s;
  }

  // ---------- powers of two ----------

  predicate IsPow2(n: int)
    decreases n
  {
    n == 1 || (n > 1 && n % 2 == 0 && IsPow2(n / 2))
  }

  /** Bitwise conjunction of non-negative integers, bit by bit. */
  function BitAnd(a: nat, b: nat): (r: nat)
  {
    if a == 0 then 0 else 2 * BitAnd(a / 2, b / 2) + (a % 2) * (b % 2)
  }

  lemma {:induction false} BitAndSelf(a: nat)
    ensures BitAnd(a, a) == a
  {
    if a != 0 {
      BitAndSelf(a / 2);
    }
  }

  /** The sources' `n & (n-1) == 0` guard, for positive n, is exactly "n is a power of two". */
  lemma {:induction false} BitTrickIsPow2(n: nat)
    requires n > 0
    ensures BitAnd(n, n - 1) == 0 <==> IsPow2(n)
  {
    if n % 2 == 1 {
      assert (n - 1) / 2 == n / 2;
      BitAndSelf(n / 2);
    } else {
      assert (n - 1) / 2 == n / 2 - 1;
      BitTrickIsPow2(n / 2);
    }
  }

  /** Of two powers of two, the smaller divides the larger with a power of two as the quotient. */
  lemma {:induction false} Pow2Div(a: nat, b: nat)
    requires IsPow2(a) && IsPow2(b) && a <= b
    ensures b % a == 0 && IsPow2(b / a)
  {
    if a > 1 {
      Pow2Div(a / 2, b / 2);
      var q := (b / 2) / (a / 2);
      assert b / 2 == (a / 2) * q;
      assert b == a * q by {
        assert b == 2 * (b / 2) && a == 2 * (a / 2);
        assert 2 * ((a / 2) * q) == (2 * (a / 2)) * q;
      }
      DivModUnique(b, a, q, 0);
    }
  }

  lemma {:induction false} MulLower(d: int, k: int)
    requires d > 0
    ensures k >= 1 ==> d * k >= d
    ensures k <= -1 ==> d * k <= -d
  {
  }

  lemma {:induction false} DivModUnique(x: int, d: int, q: int, r: int)
    requires d > 0 && x == d * q + r && 0 <= r < d
    ensures x / d == q && x % d == r
  {
    var q', r' := x / d, x % d;
    assert x == d * q' + r';
    assert d * (q - q') == d * q - d * q' == r' - r;
    MulLower(d, q - q');
  }
}
