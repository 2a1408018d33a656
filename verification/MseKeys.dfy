/** What is on the wire, byte by byte and under which key: internal/mse (hash.go, handshake.go). */
module MseKeys {
  import opened Bytes
  import opened DiffieHellman
  import opened Mse
  import opened MseHandshake

  /** HASH as SHA-1 is: 20 bytes, whatever the input. */
  ghost predicate IsHash(u: Suite) {
    forall x :: |u.hash(x)| == 20
  }

  ghost predicate Clash(u: Suite, x: seq<byte>, y: seq<byte>) {
    x != y && u.hash(x) == u.hash(y)
  }

  lemma {:induction false} HashIs(u: Suite, x: seq<byte>)
    requires IsHash(u)
    ensures Hash20(u, x) == u.hash(x)
  {
  }

  lemma {:induction false} XoredAt(a: seq<byte>, b: seq<byte>, i: nat)
    requires |a| == |b| && i < |a|
    ensures XorBytes(a, b)[i] == a[i] ^ b[i]
  {
    if i > 0 {
      XoredAt(a[1..], b[1..], i - 1);
    }
  }

  /** The field that names the torrent: two digests, one masked by the other. */
  ghost predicate IsMasked(u: Suite, field: seq<byte>, x: seq<byte>, y: seq<byte>)
    requires IsHash(u)
  {
    |field| == 20 && forall i :: 0 <= i < 20 ==> field[i] == u.hash(x)[i] ^ u.hash(y)[i]
  }

  /** What the dialing side sends once it has the other's public value. */
  lemma {:induction false} InitiatorSends(u: Suite, c: Initiator, inbox: seq<byte>)
    requires IsHash(u) && |c.skey| == 20 && |c.ia| <= 65535 && |inbox| >= 96
    ensures var s, sent, at := SharedSecret(c.priv, inbox[..96]), RunInitiator(u, c, inbox).sent, 96 + |c.padA|;
            && |sent| == at + 40 + 16 + |c.padC| + |c.ia|
            && sent[..96] == PublicBytes(c.priv) && sent[96..at] == c.padA
            && sent[at..at + 20] == u.hash([0x72, 0x65, 0x71, 0x31] + s)
            && IsMasked(u, sent[at + 20..at + 40], [0x72, 0x65, 0x71, 0x32] + c.skey, [0x72, 0x65, 0x71, 0x33] + s)
            && Crypt(u, u.hash([0x6b, 0x65, 0x79, 0x41] + s + c.skey), 1024, sent[at + 40..])
                 == Zeros(8) + BigEndian(c.provide, 4) + BigEndian(|c.padC|, 2) + c.padC + BigEndian(|c.ia|, 2) + c.ia
  {
    hide Crypt, SharedSecret, PublicBytes, BigEndian, XorBytes, FindFrom, FinishInitiator, Hash20, Req2Xor3, IsMasked;
    var s, sent, at := SharedSecret(c.priv, inbox[..96]), RunInitiator(u, c, inbox).sent, 96 + |c.padA|;
    HashIs(u, REQ1 + s);
    HashIs(u, KEY_A + s + c.skey);
    var encrypted := Crypt(u, KeyA(u, s, c.skey), BURN, PayloadA(c));
    var field := Req2Xor3(u, c.skey, s);
    assert sent == Packet1(c) + (Req1(u, s) + field + encrypted);
    assert sent[at + 40..] == encrypted;
    CryptTwice(u, KeyA(u, s, c.skey), BURN, PayloadA(c));
    assert sent[at + 20..at + 40] == field;
    XorIs(u, c.skey, s);
  }

  /** The keys of a finished handshake: the dialing side sends under "keyA" and receives under "keyB". */
  lemma {:induction false} InitiatorKeys(u: Suite, c: Initiator, inbox: seq<byte>)
    requires IsHash(u) && RunInitiator(u, c, inbox).outcome.Done?
    ensures var r := RunInitiator(u, c, inbox).outcome.ready;
            && |inbox| >= 96 && |c.skey| == 20 && r.skey == c.skey && r.pending == []
            && ((r.method_ == 1 && c.provide % 2 == 1) || (r.method_ == 2 && c.provide % 4 >= 2)) && r.encrypted == (r.method_ == 2)
            && var s := SharedSecret(c.priv, inbox[..96]);
            && r.encKey == u.hash([0x6b, 0x65, 0x79, 0x41] + s + c.skey) && r.encPos == 1024 + 16 + |c.padC| + |c.ia|
            && r.decKey == u.hash([0x6b, 0x65, 0x79, 0x42] + s + c.skey)
  {
    hide Crypt, SharedSecret, PublicBytes, BigEndian, FindFrom, Hash20, FromBigEndian, Packet3;
    assert c.provide % 4 >= 2 <==> (c.provide / 2) % 2 == 1;
    var s := SharedSecret(c.priv, inbox[..96]);
    HashIs(u, KEY_A + s + c.skey);
    HashIs(u, KEY_B + s + c.skey);
  }

  /** The receiver's answer: its connection, and the stretch of the inbox it was read from. */
  ghost predicate ReadFrom(u: Suite, c: Receiver, inbox: seq<byte>, r: Ready, at: nat)
    requires IsHash(u) && |inbox| >= 96
  {
    var s := SharedSecret(c.priv, inbox[..96]);
    && 136 <= at <= r.taken <= |inbox| && r.skey in c.skeys
    && inbox[at - 40..at - 20] == u.hash([0x72, 0x65, 0x71, 0x31] + s)
    && IsMasked(u, inbox[at - 20..at], [0x72, 0x65, 0x71, 0x32] + r.skey, [0x72, 0x65, 0x71, 0x33] + s)
    && IsPayload(Crypt(u, u.hash([0x6b, 0x65, 0x79, 0x41] + s + r.skey), 1024, inbox[at..r.taken]), r)
  }

  /** VC, crypto_provide, PadC and IA, each behind its length. */
  ghost predicate IsPayload(p: seq<byte>, r: Ready) {
    |p| >= 16 && p[..8] == Zeros(8) &&
    var provide, pad := FromBigEndian(p[8..12]), FromBigEndian(p[12..14]);
    && |p| == 16 + pad + |r.pending| && FromBigEndian(p[14 + pad..16 + pad]) == |r.pending| && p[16 + pad..] == r.pending
    && Some(r.method_) == DefaultSelector(provide) && r.decPos == 1024 + |p|
  }

  lemma {:induction false} MatchedKey(u: Suite, skeys: seq<seq<byte>>, s: seq<byte>, got: seq<byte>)
    ensures var k := MatchSkey(u, skeys, s, got); k.Some? ==> k.value in skeys && Req2Xor3(u, k.value, s) == got
  {
    if skeys != [] && Req2Xor3(u, skeys[0], s) != got {
      MatchedKey(u, skeys[1..], s, got);
    }
  }

  lemma {:induction false} XorIs(u: Suite, skey: seq<byte>, s: seq<byte>)
    requires IsHash(u)
    ensures IsMasked(u, Req2Xor3(u, skey, s), [0x72, 0x65, 0x71, 0x32] + skey, [0x72, 0x65, 0x71, 0x33] + s)
  {
    hide XorBytes, Hash20;
    HashIs(u, REQ2 + skey);
    HashIs(u, REQ3 + s);
    forall i | 0 <= i < 20 ensures Req2Xor3(u, skey, s)[i] == u.hash(REQ2 + skey)[i] ^ u.hash(REQ3 + s)[i] {
      XoredAt(u.hash(REQ2 + skey), u.hash(REQ3 + s), i);
    }
  }

  /** Decrypting piece by piece is decrypting the whole. */
  lemma {:induction false} PayloadIs(u: Suite, key: seq<byte>, rest: seq<byte>, r: Ready, pad: nat)
    requires |rest| >= 16 + pad + |r.pending|
    requires var head := Crypt(u, key, BURN, rest[..14]);
             head[..8] == Zeros(8) && FromBigEndian(head[12..]) == pad && Some(r.method_) == DefaultSelector(FromBigEndian(head[8..12]))
    requires FromBigEndian(Crypt(u, key, BURN + 14 + pad, rest[14..][pad..pad + 2])) == |r.pending|
    requires Crypt(u, key, BURN + 16 + pad, rest[14..][pad + 2..pad + 2 + |r.pending|]) == r.pending && r.decPos == BURN + 16 + pad + |r.pending|
    ensures IsPayload(Crypt(u, key, BURN, rest[..16 + pad + |r.pending|]), r)
  {
    hide Crypt, FromBigEndian, DefaultSelector;
    var end := 16 + pad + |r.pending|;
    var data := rest[..end];
    CryptAt(u, key, BURN, data, 0, 14);
    CryptAt(u, key, BURN, data, 14 + pad, 16 + pad);
    CryptAt(u, key, BURN, data, 16 + pad, end);
    PartOfPrefix(rest, end, 0, 14);
    PartOfPrefix(rest, end, 14 + pad, 16 + pad);
    PartOfPrefix(rest, end, 16 + pad, end);
    PartOfSuffix(rest, 14, pad, pad + 2);
    PartOfSuffix(rest, 14, pad + 2, pad + 2 + |r.pending|);
    assert rest[0..14] == rest[..14];
    var p, head := Crypt(u, key, BURN, data), Crypt(u, key, BURN, rest[..14]);
    assert p[0..14] == head;
    assert p[..8] == head[..8] && p[8..12] == head[8..12] && p[12..14] == head[12..];
    assert p[16 + pad..] == p[16 + pad..end];
  }

  lemma {:induction false} PartOfPrefix(s: seq<byte>, n: nat, i: nat, j: nat)
    requires i <= j <= n <= |s|
    ensures s[..n][i..j] == s[i..j]
  {
  }

  lemma {:induction false} PartOfSuffix(s: seq<byte>, n: nat, i: nat, j: nat)
    requires i <= j && n + j <= |s|
    ensures s[n..][i..j] == s[n + i..n + j]
  {
  }

  lemma {:induction false} CryptAt(u: Suite, key: seq<byte>, pos: nat, data: seq<byte>, i: nat, j: nat)
    requires i <= j <= |data|
    ensures Crypt(u, key, pos, data)[i..j] == Crypt(u, key, pos + i, data[i..j])
  {
    hide Crypt;
    var a, b, c := data[..i], data[i..j], data[j..];
    assert data == a + b + c;
    CryptSplit(u, key, pos, a + b, c);
    CryptSplit(u, key, pos, a, b);
  }

  /** What the accepting side has read when it answers. */
  lemma {:induction false} ReceiverReads(u: Suite, c: Receiver, inbox: seq<byte>) returns (at: nat)
    requires IsHash(u) && RunReceiver(u, c, inbox).outcome.Done?
    ensures |inbox| >= 96 && ReadFrom(u, c, inbox, RunReceiver(u, c, inbox).outcome.ready, at)
  {
    hide Crypt, SharedSecret, PublicBytes, BigEndian, FromBigEndian, FindFrom, Hash20, Req2Xor3, FinishReceiver, MatchSkey, IsPayload, IsMasked;
    var s := SharedSecret(c.priv, inbox[..96]);
    var n := FindFrom(inbox[96..], Req1(u, s), MAX_PAD + HASH_LEN, 0).end;
    var rest := inbox[96 + n..];
    assert EndsAt(inbox[96..], Req1(u, s), n);
    MatchedKey(u, c.skeys, s, rest[..20]);
    var skey := MatchSkey(u, c.skeys, s, rest[..20]).value;
    HashIs(u, REQ1 + s);
    HashIs(u, KEY_A + s + skey);
    XorIs(u, skey, s);
    at := 116 + n;
    var r := RunReceiver(u, c, inbox).outcome.ready;
    assert inbox[at - 40..at - 20] == inbox[96..][n - 20..n];
    assert inbox[at - 20..at] == rest[..20];
    assert rest[20..] == inbox[at..];
    FinishedReading(u, c, s, skey, inbox[at..], at);
    assert inbox[at..][..r.taken - at] == inbox[at..r.taken];
  }

  lemma {:induction false} FinishedReading(u: Suite, c: Receiver, s: seq<byte>, skey: seq<byte>, rest: seq<byte>, taken: nat)
    requires FinishReceiver(u, c, s, skey, rest, taken).outcome.Done?
    ensures var r := FinishReceiver(u, c, s, skey, rest, taken).outcome.ready;
            && r.skey == skey && taken <= r.taken <= taken + |rest|
            && IsPayload(Crypt(u, KeyA(u, s, skey), BURN, rest[..r.taken - taken]), r)
  {
    hide Crypt, BigEndian, FromBigEndian, KeyA, KeyB, ReplyB, DefaultSelector, IsPayload;
    var head := Crypt(u, KeyA(u, s, skey), BURN, rest[..14]);
    var pad := FromBigEndian(head[12..]);
    var r := FinishReceiver(u, c, s, skey, rest, taken).outcome.ready;
    PayloadIs(u, KeyA(u, s, skey), rest, r, pad);
  }

  /** What it has sent by then, and the keys it goes on with: the other way round from the dialing side. */
  lemma {:induction false} ReceiverSends(u: Suite, c: Receiver, inbox: seq<byte>)
    requires IsHash(u) && RunReceiver(u, c, inbox).outcome.Done?
    ensures var sent, r, at := RunReceiver(u, c, inbox).sent, RunReceiver(u, c, inbox).outcome.ready, 96 + |c.padB|;
            && |inbox| >= 96 && |sent| == at + 14 + |c.padD|
            && sent[..96] == PublicBytes(c.priv) && sent[96..at] == c.padB
            && var s := SharedSecret(c.priv, inbox[..96]);
            && r.encKey == u.hash([0x6b, 0x65, 0x79, 0x42] + s + r.skey) && r.encPos == 1024 + 14 + |c.padD|
            && r.decKey == u.hash([0x6b, 0x65, 0x79, 0x41] + s + r.skey) && r.encrypted == (r.method_ == 2)
            && Crypt(u, u.hash([0x6b, 0x65, 0x79, 0x42] + s + r.skey), 1024, sent[at..])
                 == Zeros(8) + BigEndian(r.method_, 4) + BigEndian(|c.padD|, 2) + c.padD
  {
    hide Crypt, SharedSecret, PublicBytes, BigEndian, FromBigEndian, FindFrom, Hash20, Req2Xor3, MatchSkey, FinishReceiver;
    var s := SharedSecret(c.priv, inbox[..96]);
    var sent, at := RunReceiver(u, c, inbox).sent, 96 + |c.padB|;
    var n := FindFrom(inbox[96..], Req1(u, s), MAX_PAD + HASH_LEN, 0).end;
    var rest := inbox[96 + n..];
    var skey := MatchSkey(u, c.skeys, s, rest[..20]).value;
    var last := FinishReceiver(u, c, s, skey, rest[20..], 116 + n);
    FinishedSending(u, c, s, skey, rest[20..], 116 + n);
    HashIs(u, KEY_A + s + skey);
    HashIs(u, KEY_B + s + skey);
    assert sent == Packet2(c) + last.sent;
    assert sent[at..] == last.sent;
    CryptTwice(u, KeyB(u, s, skey), BURN, ReplyB(last.outcome.ready.method_, c.padD));
  }

  lemma {:induction false} FinishedSending(u: Suite, c: Receiver, s: seq<byte>, skey: seq<byte>, rest: seq<byte>, taken: nat)
    requires FinishReceiver(u, c, s, skey, rest, taken).outcome.Done?
    ensures var last := FinishReceiver(u, c, s, skey, rest, taken);
            var r := last.outcome.ready;
            && r.skey == skey && r.encKey == KeyB(u, s, skey) && r.decKey == KeyA(u, s, skey) && r.encPos == BURN + 14 + |c.padD|
            && r.encrypted == (r.method_ == 2) && last.sent == Crypt(u, KeyB(u, s, skey), BURN, ReplyB(r.method_, c.padD))
  {
    hide Crypt, BigEndian, FromBigEndian, KeyA, KeyB, DefaultSelector;
  }

  // ---------- whose keystream is whose ----------

  lemma {:induction false} LabelsDiffer(s: seq<byte>, skey: seq<byte>, s': seq<byte>, skey': seq<byte>)
    ensures [0x6b, 0x65, 0x79, 0x41] + s + skey != [0x6b, 0x65, 0x79, 0x42] + s' + skey'
  {
    assert ([0x6b, 0x65, 0x79, 0x41] + s + skey)[3] == 0x41;
    assert ([0x6b, 0x65, 0x79, 0x42] + s' + skey')[3] == 0x42;
  }

  lemma {:induction false} SameLabelled(tag: seq<byte>, s: seq<byte>, skey: seq<byte>, s': seq<byte>, skey': seq<byte>)
    requires |tag| == 4 && |s| == |s'| && tag + s + skey == tag + s' + skey'
    ensures s == s' && skey == skey'
  {
    var x, y := tag + s + skey, tag + s' + skey';
    assert s == x[4..4 + |s|] && s' == y[4..4 + |s|];
    assert skey == x[4 + |s|..] && skey' == y[4 + |s|..];
  }

  /** The two directions of a connection share no keystream, unless HASH is broken: two inputs with one digest. */
  lemma {:induction false} DirectionsApart(u: Suite, c: Initiator, inbox: seq<byte>) returns (x: seq<byte>, y: seq<byte>)
    requires IsHash(u) && RunInitiator(u, c, inbox).outcome.Done?
    requires var r := RunInitiator(u, c, inbox).outcome.ready; r.encKey == r.decKey
    ensures Clash(u, x, y)
  {
    InitiatorKeys(u, c, inbox);
    hide RunInitiator;
    var s := SharedSecret(c.priv, inbox[..96]);
    x, y := [0x6b, 0x65, 0x79, 0x41] + s + c.skey, [0x6b, 0x65, 0x79, 0x42] + s + c.skey;
    LabelsDiffer(s, c.skey, s, c.skey);
  }

  /** Nor do two connections, in whichever direction, unless they have one secret and one torrent. */
  lemma {:induction false} ConnectionsApart(u: Suite, c: Initiator, inbox: seq<byte>, c': Initiator, inbox': seq<byte>)
    returns (x: seq<byte>, y: seq<byte>)
    requires IsHash(u) && RunInitiator(u, c, inbox).outcome.Done? && RunInitiator(u, c', inbox').outcome.Done?
    requires var r, r' := RunInitiator(u, c, inbox).outcome.ready, RunInitiator(u, c', inbox').outcome.ready;
             r.encKey == r'.encKey || r.decKey == r'.decKey || r.encKey == r'.decKey
    ensures || Clash(u, x, y)
            || (|inbox| >= 96 && |inbox'| >= 96 && c.skey == c'.skey && SharedSecret(c.priv, inbox[..96]) == SharedSecret(c'.priv, inbox'[..96]))
  {
    InitiatorKeys(u, c, inbox);
    InitiatorKeys(u, c', inbox');
    var r, r' := RunInitiator(u, c, inbox).outcome.ready, RunInitiator(u, c', inbox').outcome.ready;
    hide RunInitiator, SharedSecret;
    var s, s' := SharedSecret(c.priv, inbox[..96]), SharedSecret(c'.priv, inbox'[..96]);
    var a, b := [0x6b, 0x65, 0x79, 0x41], [0x6b, 0x65, 0x79, 0x42];
    if r.encKey == r'.encKey {
      x, y := a + s + c.skey, a + s' + c'.skey;
      if x == y {
        SameLabelled(a, s, c.skey, s', c'.skey);
      }
    } else if r.decKey == r'.decKey {
      x, y := b + s + c.skey, b + s' + c'.skey;
      if x == y {
        SameLabelled(b, s, c.skey, s', c'.skey);
      }
    } else {
      x, y := a + s + c.skey, b + s' + c'.skey;
      LabelsDiffer(s, c.skey, s', c'.skey);
    }
  }

  /** Numbers on the wire: the digit at each place, most significant first. */
  lemma {:induction false} BigEndianDigits(n: nat, width: nat, i: nat)
    requires i < width
    ensures Pow(256, width - 1 - i) > 0
    ensures OfByte(BigEndian(n, width)[i]) == n / Pow(256, width - 1 - i) % 256
    decreases width
  {
    hide ToByte, OfByte;
    PowPositive(width - 1 - i);
    if i == width - 1 {
      ByteRoundTrip(n % 256);
    } else {
      BigEndianDigits(n / 256, width - 1, i);
      DivTwice(n, Pow(256, width - 2 - i));
    }
  }

  lemma {:induction false} PowPositive(e: nat)
    ensures Pow(256, e) > 0
  {
    if e > 0 {
      PowPositive(e - 1);
    }
  }

  lemma {:induction false} DivTwice(n: nat, p: nat)
    requires p > 0
    ensures n / 256 / p == n / (256 * p)
  {
    var q, r := n / 256 / p, n / 256 % p;
    assert n / 256 == p * q + r;
    assert n == 256 * (p * q + r) + n % 256;
    assert 256 * (p * q) == (256 * p) * q;
    DivModUnique(n, 256 * p, q, 256 * r + n % 256);
  }
}
