/** Both sides of the MSE handshake: InitiateHandshake and ReceiveHandshake of internal/mse/handshake.go. */
module MseHandshake {
  import opened Bytes
  import opened DiffieHellman
  import opened Mse

  /** What each side brings: its choices, its random private value and its random pads. */
  datatype Initiator = Initiator(skey: seq<byte>, provide: nat, ia: seq<byte>, priv: nat, padA: seq<byte>, padC: seq<byte>)
  datatype Receiver = Receiver(skeys: seq<seq<byte>>, priv: nat, padB: seq<byte>, padD: seq<byte>)

  datatype HandshakeError = BadSkey | IaTooLarge | SyncFailed | NoSkeyMatches | VcMismatch | NoCommonMethod
                          | InvalidMethod | NotOffered

  /** The connection a side ends up with; no keys means bytes pass through unencrypted. */
  datatype Ready = Ready(method_: nat, skey: seq<byte>, encrypted: bool, encKey: seq<byte>, encPos: nat,
                         decKey: seq<byte>, decPos: nat, pending: seq<byte>, taken: nat)

  datatype Outcome = Blocked | Failed(error: HandshakeError) | Done(ready: Ready)

  /** What a side sends, and how it ends, given the bytes delivered to it. */
  datatype Run = Run(sent: seq<byte>, outcome: Outcome)

  function U16(n: nat): (b: seq<byte>)
    ensures |b| == 2
  {
    BigEndian(n, 2)
  }

  function U32(n: nat): (b: seq<byte>)
    ensures |b| == 4
  {
    BigEndian(n, 4)
  }

  const VC: seq<byte> := Zeros(VC_LEN)

  predicate Offers(provide: nat, method_: nat)
    requires method_ > 0
  {
    (provide / method_) % 2 == 1
  }

  /** DefaultSelector: RC4 if offered, else plaintext. */
  function DefaultSelector(offered: nat): (m: Option<nat>) {
    if Offers(offered, CRYPTO_RC4) then Some(CRYPTO_RC4)
    else if Offers(offered, CRYPTO_PLAINTEXT) then Some(CRYPTO_PLAINTEXT)
    else None
  }

  // ---------- specification: the initiator ----------

  function PayloadA(c: Initiator): (p: seq<byte>) {
    VC + U32(c.provide) + U16(|c.padC|) + c.padC + U16(|c.ia|) + c.ia
  }

  function Packet1(c: Initiator): (p: seq<byte>) {
    PublicBytes(c.priv) + c.padA
  }

  function Packet3(u: Suite, c: Initiator, s: seq<byte>): (p: seq<byte>) {
    Req1(u, s) + Req2Xor3(u, c.skey, s) + Crypt(u, KeyA(u, s, c.skey), BURN, PayloadA(c))
  }

  /** The part of the stream that locates packet 4: the peer's VC as it appears encrypted. */
  function EncryptedVc(u: Suite, key: seq<byte>): (e: seq<byte>)
    ensures |e| == VC_LEN
  {
    Crypt(u, key, BURN, VC)
  }

  /** After the VC: crypto_select, PadD, and the checks on the selected method. */
  function FinishInitiator(u: Suite, c: Initiator, s: seq<byte>, rest: seq<byte>, taken: nat): (o: Outcome) {
    var kA, kB := KeyA(u, s, c.skey), KeyB(u, s, c.skey);
    if |rest| < 6 then Blocked
    else
      var head := Crypt(u, kB, BURN + VC_LEN, rest[..6]);
      var selected, padLen := FromBigEndian(head[..4]), FromBigEndian(head[4..]);
      if |rest| < 6 + padLen then Blocked
      else if selected != CRYPTO_PLAINTEXT && selected != CRYPTO_RC4 then Failed(InvalidMethod)
      else if !Offers(c.provide, selected) then Failed(NotOffered)
      else Done(Ready(selected, c.skey, selected == CRYPTO_RC4, kA, BURN + |PayloadA(c)|, kB, BURN + VC_LEN + 6 + padLen, [],
                      taken + 6 + padLen))
  }

  function RunInitiator(u: Suite, c: Initiator, inbox: seq<byte>): (r: Run) {
    if |c.skey| != 20 then Run([], Failed(BadSkey))
    else if |c.ia| > MAX_IA then Run([], Failed(IaTooLarge))
    else if |inbox| < DH_BYTE_LEN then Run(Packet1(c), Blocked)
    else
      var s := SharedSecret(c.priv, inbox[..DH_BYTE_LEN]);
      var sent := Packet1(c) + Packet3(u, c, s);
      match FindFrom(inbox[DH_BYTE_LEN..], EncryptedVc(u, KeyB(u, s, c.skey)), MAX_PAD + VC_LEN, 0)
      case Starved => Run(sent, Blocked)
      case NotFound => Run(sent, Failed(SyncFailed))
      case Found(n) => Run(sent, FinishInitiator(u, c, s, inbox[DH_BYTE_LEN + n..], DH_BYTE_LEN + n))
  }

  // ---------- specification: the receiver ----------

  function ReplyB(selected: nat, padD: seq<byte>): (p: seq<byte>) {
    VC + U32(selected) + U16(|padD|) + padD
  }

  function Packet2(c: Receiver): (p: seq<byte>) {
    PublicBytes(c.priv) + c.padB
  }

  /** The first candidate key whose hash is on the wire. */
  function MatchSkey(u: Suite, skeys: seq<seq<byte>>, s: seq<byte>, got: seq<byte>): (k: Option<seq<byte>>) {
    if skeys == [] then None
    else if Req2Xor3(u, skeys[0], s) == got then Some(skeys[0])
    else MatchSkey(u, skeys[1..], s, got)
  }

  /** After packet 3 is decrypted: the choice of method, and packet 4. */
  function Reply(u: Suite, c: Receiver, s: seq<byte>, skey: seq<byte>, provided: nat, ia: seq<byte>, read: nat, taken: nat): (r: Run) {
    var kA, kB := KeyA(u, s, skey), KeyB(u, s, skey);
    match DefaultSelector(provided)
    case None => Run([], Failed(NoCommonMethod))
    case Some(selected) =>
      Run(Crypt(u, kB, BURN, ReplyB(selected, c.padD)),
          Done(Ready(selected, skey, selected == CRYPTO_RC4, kB, BURN + |ReplyB(selected, c.padD)|, kA, BURN + read, ia, taken)))
  }

  /** After crypto_provide and the length of PadC: what is left of packet 3. */
  function FinishPadAndIa(u: Suite, c: Receiver, s: seq<byte>, skey: seq<byte>, provided: nat, padLen: nat, rest: seq<byte>, taken: nat): (r: Run) {
    var kA := KeyA(u, s, skey);
    if |rest| < padLen + 2 then Run([], Blocked)
    else
      var iaLen := FromBigEndian(Crypt(u, kA, BURN + 14 + padLen, rest[padLen..padLen + 2]));
      if iaLen > MAX_IA then Run([], Failed(IaTooLarge))
      else if |rest| < padLen + 2 + iaLen then Run([], Blocked)
      else
        var ia := Crypt(u, kA, BURN + 16 + padLen, rest[padLen + 2..padLen + 2 + iaLen]);
        Reply(u, c, s, skey, provided, ia, 16 + padLen + iaLen, taken + padLen + 2 + iaLen)
  }

  /** Decrypting the rest of packet 3: VC, crypto_provide, PadC, IA. */
  function FinishReceiver(u: Suite, c: Receiver, s: seq<byte>, skey: seq<byte>, rest: seq<byte>, taken: nat): (r: Run) {
    var kA := KeyA(u, s, skey);
    if |rest| < 14 then Run([], Blocked)
    else
      var head := Crypt(u, kA, BURN, rest[..14]);
      if head[..VC_LEN] != VC then Run([], Failed(VcMismatch))
      else
        var provided, padLen := FromBigEndian(head[VC_LEN..VC_LEN + 4]), FromBigEndian(head[VC_LEN + 4..]);
        FinishPadAndIa(u, c, s, skey, provided, padLen, rest[14..], taken + 14)
  }

  function AfterReq1(u: Suite, c: Receiver, s: seq<byte>, rest: seq<byte>, taken: nat): (r: Run) {
    if |rest| < HASH_LEN then Run([], Blocked)
    else
      match MatchSkey(u, c.skeys, s, rest[..HASH_LEN])
      case None => Run([], Failed(NoSkeyMatches))
      case Some(skey) => FinishReceiver(u, c, s, skey, rest[HASH_LEN..], taken + HASH_LEN)
  }

  function After(sent: seq<byte>, r: Run): (r': Run) {
    Run(sent + r.sent, r.outcome)
  }

  function RunReceiver(u: Suite, c: Receiver, inbox: seq<byte>): (r: Run) {
    if |inbox| < DH_BYTE_LEN then Run(Packet2(c), Blocked)
    else
      var s := SharedSecret(c.priv, inbox[..DH_BYTE_LEN]);
      match FindFrom(inbox[DH_BYTE_LEN..], Req1(u, s), MAX_PAD + HASH_LEN, 0)
      case Starved => Run(Packet2(c), Blocked)
      case NotFound => Run(Packet2(c), Failed(SyncFailed))
      case Found(n) => After(Packet2(c), AfterReq1(u, c, s, inbox[DH_BYTE_LEN + n..], DH_BYTE_LEN + n))
  }

  // ---------- the code ----------

  /** InitiateHandshake, the dialing side. */
  method InitiateHandshake(u: Suite, conn: Wire, c: Initiator) returns (o: Outcome)
    requires conn.Valid() && conn.taken == 0 && conn.outbox == []
    modifies conn
    ensures Run(conn.outbox, o) == RunInitiator(u, c, conn.inbox)
    ensures o.Done? ==> conn.taken == o.ready.taken
  {
    hide Crypt, SharedSecret, PublicBytes, BigEndian, FromBigEndian, FindFrom, Req2Xor3, KeyA, KeyB, Req1, PayloadA;
    if |c.skey| != 20 {
      return Failed(BadSkey);
    }
    if |c.ia| > MAX_IA {
      return Failed(IaTooLarge);
    }
    conn.Write(PublicBytes(c.priv) + c.padA);
    assert [] + Packet1(c) == Packet1(c);
    assert conn.Rest() == conn.inbox;
    var yb := conn.ReadFull(DH_BYTE_LEN);
    if yb.None? {
      return Blocked;
    }
    var s := SharedSecret(c.priv, yb.value);
    var encrypt := new Cipher(KeyA(u, s, c.skey));
    var decrypt := new Cipher(KeyB(u, s, c.skey));
    var encrypted := encrypt.XorKeyStream(u, PayloadA(c));
    conn.Write(Req1(u, s) + Req2Xor3(u, c.skey, s) + encrypted);
    var eVC := decrypt.XorKeyStream(u, VC);
    var found := ReadUntil(conn, eVC, MAX_PAD + VC_LEN);
    match found {
      case Starved => return Blocked;
      case NotFound => return Failed(SyncFailed);
      case Found(n) =>
        assert conn.Rest() == conn.inbox[DH_BYTE_LEN + n..];
    }
    o := ReadSelection(u, conn, c, s, encrypt, decrypt);
  }

  /** The tail of InitiateHandshake, after the peer's VC. */
  method ReadSelection(u: Suite, conn: Wire, c: Initiator, s: seq<byte>, encrypt: Cipher, decrypt: Cipher) returns (o: Outcome)
    requires conn.Valid() && encrypt != decrypt
    requires encrypt.key == KeyA(u, s, c.skey) && encrypt.pos == BURN + |PayloadA(c)|
    requires decrypt.key == KeyB(u, s, c.skey) && decrypt.pos == BURN + VC_LEN
    modifies conn, decrypt
    ensures conn.outbox == old(conn.outbox)
    ensures o == FinishInitiator(u, c, s, old(conn.Rest()), old(conn.taken))
    ensures o.Done? ==> conn.taken == o.ready.taken
  {
    hide Crypt, BigEndian, FromBigEndian, KeyA, KeyB, PayloadA;
    var rest := conn.ReadFull(6);
    if rest.None? {
      return Blocked;
    }
    var head := decrypt.XorKeyStream(u, rest.value);
    var selected, padDLen := FromBigEndian(head[..4]), FromBigEndian(head[4..6]);
    assert head[4..6] == head[4..];
    if padDLen > 0 {
      var padD := conn.ReadFull(padDLen);
      if padD.None? {
        return Blocked;
      }
      var _ := decrypt.XorKeyStream(u, padD.value);
    }
    if selected != CRYPTO_PLAINTEXT && selected != CRYPTO_RC4 {
      return Failed(InvalidMethod);
    }
    if !Offers(c.provide, selected) {
      return Failed(NotOffered);
    }
    o := Done(Ready(selected, c.skey, selected == CRYPTO_RC4, encrypt.key, encrypt.pos, decrypt.key, decrypt.pos, [], conn.taken));
  }

  /** The loop over candidate keys. */
  method FindSkey(u: Suite, skeys: seq<seq<byte>>, s: seq<byte>, got: seq<byte>) returns (matched: Option<seq<byte>>)
    ensures matched == MatchSkey(u, skeys, s, got)
  {
    for i := 0 to |skeys|
      invariant MatchSkey(u, skeys[i..], s, got) == MatchSkey(u, skeys, s, got)
    {
      assert skeys[i..][0] == skeys[i] && skeys[i..][1..] == skeys[i + 1..];
      if Req2Xor3(u, skeys[i], s) == got {
        return Some(skeys[i]);
      }
    }
    matched := None;
  }

  /** ReceiveHandshake, the accepting side. */
  method ReceiveHandshake(u: Suite, conn: Wire, c: Receiver) returns (o: Outcome)
    requires conn.Valid() && conn.taken == 0 && conn.outbox == []
    modifies conn
    ensures Run(conn.outbox, o) == RunReceiver(u, c, conn.inbox)
    ensures o.Done? ==> conn.taken == o.ready.taken
  {
    hide Crypt, SharedSecret, PublicBytes, BigEndian, FromBigEndian, FindFrom, Req2Xor3, KeyA, KeyB, Req1, MatchSkey, FinishReceiver;
    conn.Write(PublicBytes(c.priv) + c.padB);
    assert [] + Packet2(c) == Packet2(c);
    assert conn.Rest() == conn.inbox;
    var ya := conn.ReadFull(DH_BYTE_LEN);
    if ya.None? {
      return Blocked;
    }
    var s := SharedSecret(c.priv, ya.value);
    var found := ReadUntil(conn, Req1(u, s), MAX_PAD + HASH_LEN);
    match found {
      case Starved => return Blocked;
      case NotFound => return Failed(SyncFailed);
      case Found(n) =>
        assert conn.Rest() == conn.inbox[DH_BYTE_LEN + n..];
    }
    assert Packet2(c) + [] == Packet2(c);
    var gotXor := conn.ReadFull(HASH_LEN);
    if gotXor.None? {
      return Blocked;
    }
    var matched := FindSkey(u, c.skeys, s, gotXor.value);
    if matched.None? {
      return Failed(NoSkeyMatches);
    }
    o := ReadPacket3(u, conn, c, s, matched.value);
  }

  /** The rest of ReceiveHandshake: decrypting packet 3 and answering it. */
  method ReadPacket3(u: Suite, conn: Wire, c: Receiver, s: seq<byte>, skey: seq<byte>) returns (o: Outcome)
    requires conn.Valid()
    modifies conn
    ensures var r := FinishReceiver(u, c, s, skey, old(conn.Rest()), old(conn.taken));
            conn.outbox == old(conn.outbox) + r.sent && o == r.outcome
    ensures o.Done? ==> conn.taken == o.ready.taken
  {
    hide Crypt, BigEndian, FromBigEndian, KeyA, KeyB, Reply;
    ghost var outbox := conn.outbox;
    assert outbox + [] == outbox;
    var decrypt := new Cipher(KeyA(u, s, skey));
    var encrypt := new Cipher(KeyB(u, s, skey));
    var buf := conn.ReadFull(14);
    if buf.None? {
      return Blocked;
    }
    var head := decrypt.XorKeyStream(u, buf.value);
    if head[..VC_LEN] != VC {
      return Failed(VcMismatch);
    }
    var provided, padCLen := FromBigEndian(head[VC_LEN..VC_LEN + 4]), FromBigEndian(head[VC_LEN + 4..]);
    o := ReadPadAndIa(u, conn, c, s, skey, provided, padCLen, decrypt, encrypt);
  }

  /** PadC is thrown away, the initial payload kept. */
  method ReadPadAndIa(u: Suite, conn: Wire, c: Receiver, s: seq<byte>, skey: seq<byte>, provided: nat, padCLen: nat,
                      decrypt: Cipher, encrypt: Cipher) returns (o: Outcome)
    requires conn.Valid() && decrypt != encrypt
    requires decrypt.key == KeyA(u, s, skey) && decrypt.pos == BURN + 14 && encrypt.key == KeyB(u, s, skey) && encrypt.pos == BURN
    modifies conn, encrypt, decrypt
    ensures var r := FinishPadAndIa(u, c, s, skey, provided, padCLen, old(conn.Rest()), old(conn.taken));
            conn.outbox == old(conn.outbox) + r.sent && o == r.outcome
    ensures o.Done? ==> conn.taken == o.ready.taken
  {
    hide Crypt, FromBigEndian, KeyA, KeyB, Reply;
    ghost var rest, outbox := conn.Rest(), conn.outbox;
    assert outbox + [] == outbox;
    if padCLen > 0 {
      var padC := conn.ReadFull(padCLen);
      if padC.None? {
        return Blocked;
      }
      var _ := decrypt.XorKeyStream(u, padC.value);
    }
    assert conn.Rest() == rest[padCLen..];
    var iaLenBuf := conn.ReadFull(2);
    if iaLenBuf.None? {
      return Blocked;
    }
    assert iaLenBuf.value == rest[padCLen..padCLen + 2];
    var iaLenPlain := decrypt.XorKeyStream(u, iaLenBuf.value);
    var iaLen := FromBigEndian(iaLenPlain);
    if iaLen > MAX_IA {
      return Failed(IaTooLarge);
    }
    var ia: seq<byte> := [];
    assert conn.Rest() == rest[padCLen + 2..];
    CryptNothing(u, decrypt.key, decrypt.pos);
    if iaLen > 0 {
      var iaBuf := conn.ReadFull(iaLen);
      if iaBuf.None? {
        return Blocked;
      }
      ia := decrypt.XorKeyStream(u, iaBuf.value);
    }
    assert rest[padCLen + 2..][..iaLen] == rest[padCLen + 2..padCLen + 2 + iaLen];
    o := Answer(u, conn, c, s, skey, provided, ia, decrypt, encrypt);
  }

  /** Packet 4: the method chosen and PadD, encrypted with the receiver's own stream. */
  method Answer(u: Suite, conn: Wire, c: Receiver, s: seq<byte>, skey: seq<byte>, provided: nat, ia: seq<byte>,
                decrypt: Cipher, encrypt: Cipher) returns (o: Outcome)
    requires conn.Valid() && decrypt != encrypt && decrypt.pos >= BURN
    requires decrypt.key == KeyA(u, s, skey) && encrypt.key == KeyB(u, s, skey) && encrypt.pos == BURN
    modifies conn, encrypt
    ensures var r := Reply(u, c, s, skey, provided, ia, decrypt.pos - BURN, old(conn.taken));
            conn.outbox == old(conn.outbox) + r.sent && o == r.outcome
    ensures o.Done? ==> conn.taken == o.ready.taken
  {
    hide Crypt, BigEndian, KeyA, KeyB, ReplyB;
    assert conn.outbox + [] == conn.outbox;
    var selected := DefaultSelector(provided);
    if selected.None? {
      return Failed(NoCommonMethod);
    }
    var encReply := encrypt.XorKeyStream(u, ReplyB(selected.value, c.padD));
    conn.Write(encReply);
    o := Done(Ready(selected.value, skey, selected.value == CRYPTO_RC4, encrypt.key, encrypt.pos, decrypt.key, decrypt.pos, ia, conn.taken));
  }

  lemma {:induction false} CryptNothing(u: Suite, key: seq<byte>, pos: nat)
    ensures Crypt(u, key, pos, []) == []
  {
  }
}
