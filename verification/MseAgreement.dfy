/** The two sides of the MSE handshake agree, over every schedule of two byte streams. */
module MseAgreement {
  import opened Bytes
  import opened DiffieHellman
  import opened Mse
  import opened MseHandshake

  /** Both sides' secret, and what each will have sent in all. */
  function Secret(a: Initiator, b: Receiver): (s: seq<byte>) {
    SharedSecret(a.priv, PublicBytes(b.priv))
  }

  function SentByA(u: Suite, a: Initiator, b: Receiver): (t: seq<byte>) {
    Packet1(a) + Packet3(u, a, Secret(a, b))
  }

  function Chosen(a: Initiator): (m: nat)
    requires DefaultSelector(a.provide).Some?
  {
    DefaultSelector(a.provide).value
  }

  function Packet4(u: Suite, a: Initiator, b: Receiver): (p: seq<byte>)
    requires DefaultSelector(a.provide).Some?
  {
    Crypt(u, KeyB(u, Secret(a, b), a.skey), BURN, ReplyB(Chosen(a), b.padD))
  }

  function SentByB(u: Suite, a: Initiator, b: Receiver): (t: seq<byte>)
    requires DefaultSelector(a.provide).Some?
  {
    Packet2(b) + Packet4(u, a, b)
  }

  /** What the two sides may be: legal sizes, a key in common, and no accident of the random bytes. */
  ghost predicate Compatible(u: Suite, a: Initiator, b: Receiver) {
    && |a.skey| == 20 && |a.ia| <= MAX_IA && a.provide < 0x1_0000_0000
    && |a.padA| <= MAX_PAD && |a.padC| <= MAX_PAD && |b.padB| <= MAX_PAD && |b.padD| <= MAX_PAD
    && a.skey in b.skeys
    && (forall k :: k in b.skeys && Req2Xor3(u, k, Secret(a, b)) == Req2Xor3(u, a.skey, Secret(a, b)) ==> k == a.skey)
    && NoEarlyMatch(a.padA, Req1(u, Secret(a, b)))
    && NoEarlyMatch(b.padB, EncryptedVc(u, KeyB(u, Secret(a, b), a.skey)))
  }

  // ---------- small facts about the fields ----------

  lemma {:induction false} U16RoundTrip(n: nat)
    requires n < 0x1_0000
    ensures FromBigEndian(U16(n)) == n
  {
    assert Pow(256, 1) == 256 * Pow(256, 0);
    assert Pow(256, 2) == 256 * Pow(256, 1);
    BigEndianRoundTrip(n, 2);
  }

  lemma {:induction false} U32RoundTrip(n: nat)
    requires n < 0x1_0000_0000
    ensures FromBigEndian(U32(n)) == n
  {
    assert Pow(256, 1) == 256 * Pow(256, 0);
    assert Pow(256, 2) == 256 * Pow(256, 1);
    assert Pow(256, 3) == 256 * Pow(256, 2);
    assert Pow(256, 4) == 256 * Pow(256, 3);
    BigEndianRoundTrip(n, 4);
  }

  lemma {:induction false} ChosenIsOffered(provide: nat)
    ensures DefaultSelector(provide).Some? <==> Offers(provide, CRYPTO_RC4) || Offers(provide, CRYPTO_PLAINTEXT)
    ensures DefaultSelector(provide).Some? ==>
              var m := DefaultSelector(provide).value;
              Offers(provide, m) && (m == CRYPTO_RC4 || m == CRYPTO_PLAINTEXT) && (Offers(provide, CRYPTO_RC4) ==> m == CRYPTO_RC4)
  {
  }

  lemma {:induction false} SkeyIsMatched(u: Suite, skeys: seq<seq<byte>>, s: seq<byte>, skey: seq<byte>)
    requires skey in skeys
    requires forall k :: k in skeys && Req2Xor3(u, k, s) == Req2Xor3(u, skey, s) ==> k == skey
    ensures MatchSkey(u, skeys, s, Req2Xor3(u, skey, s)) == Some(skey)
  {
    hide Req2Xor3;
    if skeys[0] != skey {
      assert skeys[0] in skeys && skey in skeys[1..];
      SkeyIsMatched(u, skeys[1..], s, skey);
    }
  }

  // ---------- packet 3 as the receiver reads it ----------

  lemma {:induction false} PayloadAFields(c: Initiator)
    ensures var p, n, i := PayloadA(c), |c.padC|, |c.ia|;
            && |p| == 16 + n + i && p[..VC_LEN] == VC && p[VC_LEN..VC_LEN + 4] == U32(c.provide)
            && p[VC_LEN + 4..14] == U16(n) && p[14 + n..16 + n] == U16(i) && p[16 + n..] == c.ia
  {
    hide BigEndian;
    var h1 := VC + U32(c.provide);
    var h2 := h1 + U16(|c.padC|);
    var h3 := h2 + c.padC;
    var h4 := h3 + U16(|c.ia|);
    var p := PayloadA(c);
    assert p == h4 + c.ia;
    assert p[..12] == h1 && p[..14] == h2 && p[..14 + |c.padC|] == h3 && p[..16 + |c.padC|] == h4;
    assert p[..VC_LEN] == h1[..VC_LEN] && p[VC_LEN..12] == h1[VC_LEN..];
    assert p[12..14] == h2[12..] && p[14 + |c.padC|..16 + |c.padC|] == h4[14 + |c.padC|..];
  }

  lemma {:induction false} TakeIsSlice(s: seq<byte>, t: seq<byte>, n: nat)
    requires s <= t && n <= |s|
    ensures s[..n] == t[..n] == t[0..n]
  {
  }

  lemma {:induction false} SubSlice(s: seq<byte>, t: seq<byte>, i: nat, j: nat)
    requires s <= t && i <= j <= |s|
    ensures s[i..j] == t[i..j]
  {
  }

  /** The receiver, given a part of the encrypted payload: it waits for all of it, then answers. */
  lemma {:induction false} ReceiverReadsPayload(u: Suite, a: Initiator, b: Receiver, s: seq<byte>, rest: seq<byte>, taken: nat)
    requires |a.ia| <= MAX_IA && |a.padC| <= MAX_PAD && a.provide < 0x1_0000_0000
    requires rest <= Crypt(u, KeyA(u, s, a.skey), BURN, PayloadA(a))
    ensures FinishReceiver(u, b, s, a.skey, rest, taken)
         == if |rest| < |PayloadA(a)| then Run([], Blocked)
            else Reply(u, b, s, a.skey, a.provide, a.ia, |PayloadA(a)|, taken + |PayloadA(a)|)
  {
    hide Crypt, BigEndian, FromBigEndian, KeyA, KeyB, PayloadA, Reply;
    var kA, p := KeyA(u, s, a.skey), PayloadA(a);
    var enc := Crypt(u, kA, BURN, p);
    var n, i := |a.padC|, |a.ia|;
    PayloadAFields(a);
    U32RoundTrip(a.provide);
    U16RoundTrip(n);
    U16RoundTrip(i);
    if |rest| >= 14 {
      TakeIsSlice(rest, enc, 14);
      DecryptSlice(u, kA, BURN, p, 0, 14);
      var head := Crypt(u, kA, BURN, rest[..14]);
      assert head == p[0..14];
      assert head[..VC_LEN] == p[..VC_LEN] && head[VC_LEN..VC_LEN + 4] == p[VC_LEN..VC_LEN + 4] && head[VC_LEN + 4..] == p[VC_LEN + 4..14];
      if |rest| >= 16 + n {
        assert rest[14..][n..n + 2] == rest[14 + n..16 + n];
        SubSlice(rest, enc, 14 + n, 16 + n);
        DecryptSlice(u, kA, BURN, p, 14 + n, 16 + n);
        if |rest| >= 16 + n + i {
          assert rest[14..][n + 2..n + 2 + i] == rest[16 + n..16 + n + i];
          SubSlice(rest, enc, 16 + n, 16 + n + i);
          DecryptSlice(u, kA, BURN, p, 16 + n, 16 + n + i);
          assert p[16 + n..16 + n + i] == p[16 + n..];
        }
      }
    }
  }

  /** The receiver, having been given any part of what the initiator sends. */
  lemma {:induction false} ReceiverOnPrefix(u: Suite, a: Initiator, b: Receiver, inbox: seq<byte>)
    requires Compatible(u, a, b) && inbox <= SentByA(u, a, b)
    ensures |inbox| < |SentByA(u, a, b)| ==> RunReceiver(u, b, inbox) == Run(Packet2(b), Blocked)
    ensures inbox == SentByA(u, a, b) ==>
              RunReceiver(u, b, inbox)
                == After(Packet2(b), Reply(u, b, Secret(a, b), a.skey, a.provide, a.ia, |PayloadA(a)|, |SentByA(u, a, b)|))
  {
    hide Crypt, SharedSecret, PublicBytes, BigEndian, FindFrom, Req2Xor3, KeyA, KeyB, Req1, MatchSkey, FinishReceiver, PayloadA, Reply, NoEarlyMatch;
    var s, t := Secret(a, b), SentByA(u, a, b);
    var marker, enc := Req1(u, s), Crypt(u, KeyA(u, s, a.skey), BURN, PayloadA(a));
    var x := Req2Xor3(u, a.skey, s);
    SecretsAgree(a.priv, b.priv);
    assert t == PublicBytes(a.priv) + (a.padA + marker + x + enc);
    assert Packet2(b) + [] == Packet2(b);
    if |inbox| >= DH_BYTE_LEN {
      var tail := a.padA + marker + x + enc;
      assert inbox[..DH_BYTE_LEN] == t[..DH_BYTE_LEN] == PublicBytes(a.priv);
      assert inbox[DH_BYTE_LEN..] <= tail;
      assert a.padA + marker <= tail;
      MarkerIsFound(a.padA, marker, inbox[DH_BYTE_LEN..], tail);
      var n := |a.padA| + HASH_LEN;
      if |inbox| >= DH_BYTE_LEN + n {
        ReceiverAfterMarker(u, a, b, inbox[DH_BYTE_LEN + n..], DH_BYTE_LEN + n);
        assert inbox[DH_BYTE_LEN + n..] <= x + enc by {
          assert tail[n..] == x + enc;
          assert inbox[DH_BYTE_LEN + n..] == inbox[DH_BYTE_LEN..][n..];
        }
      }
    }
  }

  lemma {:induction false} ReceiverAfterMarker(u: Suite, a: Initiator, b: Receiver, rest: seq<byte>, taken: nat)
    requires Compatible(u, a, b)
    ensures var s := Secret(a, b);
            var enc := Crypt(u, KeyA(u, s, a.skey), BURN, PayloadA(a));
            rest <= Req2Xor3(u, a.skey, s) + enc ==>
              AfterReq1(u, b, s, rest, taken)
                == if |rest| < HASH_LEN + |PayloadA(a)| then Run([], Blocked)
                   else Reply(u, b, s, a.skey, a.provide, a.ia, |PayloadA(a)|, taken + HASH_LEN + |PayloadA(a)|)
  {
    hide Crypt, SharedSecret, BigEndian, Req2Xor3, KeyA, KeyB, MatchSkey, FinishReceiver, PayloadA, Reply, NoEarlyMatch;
    var s := Secret(a, b);
    var enc := Crypt(u, KeyA(u, s, a.skey), BURN, PayloadA(a));
    var x := Req2Xor3(u, a.skey, s);
    if rest <= x + enc && |rest| >= HASH_LEN {
      assert rest[..HASH_LEN] == x;
      assert rest[HASH_LEN..] <= enc;
      SkeyIsMatched(u, b.skeys, s, a.skey);
      ReceiverReadsPayload(u, a, b, s, rest[HASH_LEN..], taken + HASH_LEN);
    }
  }

  // ---------- packet 4 as the initiator reads it ----------

  lemma {:induction false} ReplyBFields(m: nat, padD: seq<byte>)
    ensures var p := ReplyB(m, padD);
            && |p| == 14 + |padD| && p[..VC_LEN] == VC && p[VC_LEN..VC_LEN + 4] == U32(m) && p[VC_LEN + 4..14] == U16(|padD|)
  {
    var h1 := VC + U32(m);
    var h2 := h1 + U16(|padD|);
    assert ReplyB(m, padD) == h2 + padD;
  }

  function InitiatorReady(u: Suite, a: Initiator, b: Receiver): (r: Ready)
    requires DefaultSelector(a.provide).Some?
  {
    var s := Secret(a, b);
    Ready(Chosen(a), a.skey, Chosen(a) == CRYPTO_RC4, KeyA(u, s, a.skey), BURN + |PayloadA(a)|,
          KeyB(u, s, a.skey), BURN + 14 + |b.padD|, [], |SentByB(u, a, b)|)
  }

  function ReceiverReady(u: Suite, a: Initiator, b: Receiver): (r: Ready)
    requires DefaultSelector(a.provide).Some?
  {
    var s := Secret(a, b);
    Ready(Chosen(a), a.skey, Chosen(a) == CRYPTO_RC4, KeyB(u, s, a.skey), BURN + 14 + |b.padD|,
          KeyA(u, s, a.skey), BURN + |PayloadA(a)|, a.ia, |SentByA(u, a, b)|)
  }

  lemma {:induction false} InitiatorReadsReply(u: Suite, a: Initiator, b: Receiver, rest: seq<byte>, taken: nat)
    requires DefaultSelector(a.provide).Some? && |b.padD| <= MAX_PAD
    requires rest <= Packet4(u, a, b)[VC_LEN..] && taken == |SentByB(u, a, b)| - 6 - |b.padD|
    ensures FinishInitiator(u, a, Secret(a, b), rest, taken)
         == if |rest| < 6 + |b.padD| then Blocked else Done(InitiatorReady(u, a, b))
  {
    hide Crypt, BigEndian, FromBigEndian, KeyA, KeyB, PayloadA, ReplyB, SharedSecret;
    var s, m := Secret(a, b), Chosen(a);
    var kB, p := KeyB(u, s, a.skey), ReplyB(m, b.padD);
    ReplyBFields(m, b.padD);
    ChosenIsOffered(a.provide);
    U32RoundTrip(m);
    U16RoundTrip(|b.padD|);
    if |rest| >= 6 {
      var enc := Packet4(u, a, b);
      assert rest[..6] == enc[VC_LEN..VC_LEN + 6];
      DecryptSlice(u, kB, BURN, p, VC_LEN, VC_LEN + 6);
      var head := Crypt(u, kB, BURN + VC_LEN, rest[..6]);
      assert head == p[VC_LEN..VC_LEN + 6];
      assert head[..4] == p[VC_LEN..VC_LEN + 4] && head[4..] == p[VC_LEN + 4..14];
    }
  }

  /** The initiator, having been given any part of what the receiver sends. */
  lemma {:induction false} InitiatorOnPrefix(u: Suite, a: Initiator, b: Receiver, inbox: seq<byte>)
    requires Compatible(u, a, b) && DefaultSelector(a.provide).Some? && inbox <= SentByB(u, a, b)
    ensures RunInitiator(u, a, inbox).sent == if |inbox| < DH_BYTE_LEN then Packet1(a) else SentByA(u, a, b)
    ensures RunInitiator(u, a, inbox).outcome
         == if inbox == SentByB(u, a, b) then Done(InitiatorReady(u, a, b)) else Blocked
  {
    hide Crypt, SharedSecret, PublicBytes, BigEndian, FindFrom, Req2Xor3, KeyA, KeyB, Req1, PayloadA, ReplyB, FinishInitiator, NoEarlyMatch;
    var s, t := Secret(a, b), SentByB(u, a, b);
    var kB := KeyB(u, s, a.skey);
    var enc := Packet4(u, a, b);
    ReplyBFields(Chosen(a), b.padD);
    assert |enc| == 14 + |b.padD|;
    assert t == PublicBytes(b.priv) + (b.padB + enc);
    if |inbox| >= DH_BYTE_LEN {
      assert inbox[..DH_BYTE_LEN] == t[..DH_BYTE_LEN] == PublicBytes(b.priv);
      var tail := b.padB + enc;
      var marker := EncryptedVc(u, kB);
      assert enc[..VC_LEN] == marker by { VcLeads(u, kB, Chosen(a), b.padD); }
      assert enc == marker + enc[VC_LEN..];
      assert tail == b.padB + marker + enc[VC_LEN..];
      assert inbox[DH_BYTE_LEN..] <= tail;
      MarkerIsFound(b.padB, marker, inbox[DH_BYTE_LEN..], tail);
      var n := |b.padB| + VC_LEN;
      if |inbox| >= DH_BYTE_LEN + n {
        assert tail[n..] == enc[VC_LEN..];
        assert inbox[DH_BYTE_LEN + n..] == inbox[DH_BYTE_LEN..][n..];
        InitiatorReadsReply(u, a, b, inbox[DH_BYTE_LEN + n..], DH_BYTE_LEN + n);
      }
      if |inbox| == |t| {
        assert inbox == t;
      }
    }
  }

  /** Packet 4 starts with the encrypted VC the initiator searches for. */
  lemma {:induction false} VcLeads(u: Suite, kB: seq<byte>, m: nat, padD: seq<byte>)
    ensures Crypt(u, kB, BURN, ReplyB(m, padD))[..VC_LEN] == EncryptedVc(u, kB)
  {
    ReplyBFields(m, padD);
    var p := ReplyB(m, padD);
    assert p == VC + p[VC_LEN..];
    CryptSplit(u, kB, BURN, VC, p[VC_LEN..]);
  }

  // ---------- every schedule ----------

  /** What the network has delivered to each side so far. */
  datatype Net = Net(toA: seq<byte>, toB: seq<byte>)

  /** One more stretch, of any length, of what a side has already sent reaches the other side. */
  ghost predicate Delivers(u: Suite, a: Initiator, b: Receiver, n: Net, n': Net) {
    || (n'.toB == n.toB && n.toA < n'.toA <= RunReceiver(u, b, n.toB).sent)
    || (n'.toA == n.toA && n.toB < n'.toB <= RunInitiator(u, a, n.toA).sent)
  }

  ghost predicate IsSchedule(u: Suite, a: Initiator, b: Receiver, ns: seq<Net>) {
    && ns != [] && ns[0] == Net([], [])
    && forall i :: 0 <= i < |ns| - 1 ==> Delivers(u, a, b, ns[i], ns[i + 1])
  }

  /** Nothing is left in flight. */
  ghost predicate Quiet(u: Suite, a: Initiator, b: Receiver, n: Net) {
    n.toA == RunReceiver(u, b, n.toB).sent && n.toB == RunInitiator(u, a, n.toA).sent
  }

  lemma {:induction false} ScheduleStarts(u: Suite, a: Initiator, b: Receiver, ns: seq<Net>)
    requires IsSchedule(u, a, b, ns)
    ensures ns != [] && ns[0] == Net([], [])
  {
  }

  lemma {:induction false} ShorterSchedule(u: Suite, a: Initiator, b: Receiver, ns: seq<Net>)
    requires IsSchedule(u, a, b, ns) && |ns| > 1
    ensures IsSchedule(u, a, b, ns[..|ns| - 1]) && Delivers(u, a, b, ns[|ns| - 2], ns[|ns| - 1])
  {
    hide Delivers;
    var front := ns[..|ns| - 1];
    forall i | 0 <= i < |front| - 1 ensures Delivers(u, a, b, front[i], front[i + 1]) {
      assert Delivers(u, a, b, ns[i], ns[i + 1]);
    }
    assert Delivers(u, a, b, ns[|ns| - 2], ns[|ns| - 2 + 1]);
  }

  /** Along a schedule each side only ever receives a beginning of the other side's full script. */
  lemma {:induction false} ScheduleFollowsScript(u: Suite, a: Initiator, b: Receiver, ns: seq<Net>)
    requires Compatible(u, a, b) && DefaultSelector(a.provide).Some? && IsSchedule(u, a, b, ns)
    ensures ns[|ns| - 1].toA <= SentByB(u, a, b) && ns[|ns| - 1].toB <= SentByA(u, a, b)
    ensures |ns| - 1 <= |ns[|ns| - 1].toA| + |ns[|ns| - 1].toB|
    decreases |ns|
  {
    hide RunInitiator, RunReceiver, Compatible, SentByA, SentByB, Reply, DefaultSelector, IsSchedule, Packet1, Packet2;
    ScheduleStarts(u, a, b, ns);
    if |ns| > 1 {
      var m, n := ns[|ns| - 2], ns[|ns| - 1];
      var front := ns[..|ns| - 1];
      ShorterSchedule(u, a, b, ns);
      ScheduleFollowsScript(u, a, b, front);
      ReceiverOnPrefix(u, a, b, m.toB);
      InitiatorOnPrefix(u, a, b, m.toA);
      ReplyIsPacket4(u, a, b);
      Scripts(u, a, b);
    }
  }

  lemma {:induction false} Scripts(u: Suite, a: Initiator, b: Receiver)
    requires DefaultSelector(a.provide).Some?
    ensures Packet1(a) <= SentByA(u, a, b) && Packet2(b) <= SentByB(u, a, b)
    ensures |Packet2(b)| >= DH_BYTE_LEN
    ensures DH_BYTE_LEN <= |SentByB(u, a, b)|
  {
  }

  lemma {:induction false} ReplyIsPacket4(u: Suite, a: Initiator, b: Receiver)
    requires DefaultSelector(a.provide).Some?
    ensures After(Packet2(b), Reply(u, b, Secret(a, b), a.skey, a.provide, a.ia, |PayloadA(a)|, |SentByA(u, a, b)|))
         == Run(SentByB(u, a, b), Done(ReceiverReady(u, a, b)))
  {
    hide Crypt, BigEndian, SharedSecret, PublicBytes, KeyA, KeyB, PayloadA, ReplyB, DefaultSelector;
    ReplyBFields(Chosen(a), b.padD);
  }

  /**
   * Agreement: over every interleaving of the two byte streams, cut into pieces in any way, no side
   * ever fails; the schedule cannot go on forever; and when nothing is in flight both sides are done.
   */
  lemma {:induction false} EveryScheduleAgrees(u: Suite, a: Initiator, b: Receiver, ns: seq<Net>)
    requires Compatible(u, a, b) && DefaultSelector(a.provide).Some? && IsSchedule(u, a, b, ns)
    ensures var n := ns[|ns| - 1];
            && !RunInitiator(u, a, n.toA).outcome.Failed? && !RunReceiver(u, b, n.toB).outcome.Failed?
            && |ns| <= |SentByA(u, a, b)| + |SentByB(u, a, b)| + 1
            && (Quiet(u, a, b, n) ==>
                 && RunInitiator(u, a, n.toA).outcome == Done(InitiatorReady(u, a, b))
                 && RunReceiver(u, b, n.toB).outcome == Done(ReceiverReady(u, a, b)))
  {
    hide RunInitiator, RunReceiver, Compatible, SentByA, SentByB, Reply, InitiatorReady, ReceiverReady;
    var n := ns[|ns| - 1];
    ScheduleFollowsScript(u, a, b, ns);
    ReceiverOnPrefix(u, a, b, n.toB);
    InitiatorOnPrefix(u, a, b, n.toA);
    ReplyIsPacket4(u, a, b);
    Scripts(u, a, b);
    if |n.toB| == |SentByA(u, a, b)| {
      assert n.toB == SentByA(u, a, b);
    }
  }

  /** What the two finished sides agree on. */
  lemma {:induction false} ReadySidesMatch(u: Suite, a: Initiator, b: Receiver)
    requires Compatible(u, a, b) && DefaultSelector(a.provide).Some?
    ensures var x, y := InitiatorReady(u, a, b), ReceiverReady(u, a, b);
            && x.method_ == y.method_ && Offers(a.provide, x.method_) && x.encrypted == y.encrypted == (x.method_ == CRYPTO_RC4)
            && y.skey == a.skey && y.skey in b.skeys
            && x.encKey == y.decKey && x.encPos == y.decPos && y.encKey == x.decKey && y.encPos == x.decPos
            && x.pending == [] && y.pending == a.ia
            && x.taken == |SentByB(u, a, b)| && y.taken == |SentByA(u, a, b)|
  {
    ChosenIsOffered(a.provide);
  }

  // ---------- no method in common ----------

  /** Without a packet 4 the initiator waits for it. */
  lemma {:induction false} InitiatorWaits(u: Suite, a: Initiator, b: Receiver, inbox: seq<byte>)
    requires Compatible(u, a, b) && inbox <= Packet2(b)
    ensures RunInitiator(u, a, inbox) == Run(if |inbox| < DH_BYTE_LEN then Packet1(a) else SentByA(u, a, b), Blocked)
  {
    hide Crypt, SharedSecret, PublicBytes, BigEndian, FindFrom, Req2Xor3, KeyA, KeyB, Req1, PayloadA, NoEarlyMatch;
    if |inbox| >= DH_BYTE_LEN {
      var marker := EncryptedVc(u, KeyB(u, Secret(a, b), a.skey));
      var tail := inbox[DH_BYTE_LEN..];
      assert inbox[..DH_BYTE_LEN] == PublicBytes(b.priv) && tail <= b.padB;
      assert tail <= b.padB + marker;
      MarkerIsFound(b.padB, marker, tail, b.padB + marker);
    }
  }

  /** The receiver answers nothing beyond packet 2, and refuses once it has read the offer. */
  lemma {:induction false} ReceiverRefuses(u: Suite, a: Initiator, b: Receiver, inbox: seq<byte>)
    requires Compatible(u, a, b) && DefaultSelector(a.provide).None? && inbox <= SentByA(u, a, b)
    ensures RunReceiver(u, b, inbox) == Run(Packet2(b), if inbox == SentByA(u, a, b) then Failed(NoCommonMethod) else Blocked)
  {
    hide RunReceiver, Compatible, SentByA, DefaultSelector, Packet2;
    ReceiverOnPrefix(u, a, b, inbox);
    assert Packet2(b) + [] == Packet2(b);
    if |inbox| == |SentByA(u, a, b)| {
      assert inbox == SentByA(u, a, b);
    }
  }

  lemma {:induction false} RefusalFollowsScript(u: Suite, a: Initiator, b: Receiver, ns: seq<Net>)
    requires Compatible(u, a, b) && DefaultSelector(a.provide).None? && IsSchedule(u, a, b, ns)
    ensures ns[|ns| - 1].toA <= Packet2(b) && ns[|ns| - 1].toB <= SentByA(u, a, b)
    ensures |ns| - 1 <= |ns[|ns| - 1].toA| + |ns[|ns| - 1].toB|
    decreases |ns|
  {
    hide RunInitiator, RunReceiver, Compatible, Packet2;
    if |ns| > 1 {
      var m := ns[|ns| - 2];
      ShorterSchedule(u, a, b, ns);
      RefusalFollowsScript(u, a, b, ns[..|ns| - 1]);
      ReceiverRefuses(u, a, b, m.toB);
      InitiatorWaits(u, a, b, m.toA);
    }
  }

  /**
   * With no common method offered, over every schedule: the initiator never gets past waiting, the receiver never
   * completes, the schedule cannot go on forever, and when nothing is in flight the receiver has refused.
   */
  lemma {:induction false} NoCommonMethodNeverCompletes(u: Suite, a: Initiator, b: Receiver, ns: seq<Net>)
    requires Compatible(u, a, b) && DefaultSelector(a.provide).None? && IsSchedule(u, a, b, ns)
    ensures var n := ns[|ns| - 1];
            && RunInitiator(u, a, n.toA).outcome == Blocked
            && RunReceiver(u, b, n.toB).outcome in {Blocked, Failed(NoCommonMethod)}
            && |ns| <= |SentByA(u, a, b)| + |Packet2(b)| + 1
            && (Quiet(u, a, b, n) ==> RunReceiver(u, b, n.toB).outcome == Failed(NoCommonMethod))
  {
    hide RunInitiator, RunReceiver, Compatible, SentByA;
    var n := ns[|ns| - 1];
    RefusalFollowsScript(u, a, b, ns);
    ReceiverRefuses(u, a, b, n.toB);
    InitiatorWaits(u, a, b, n.toA);
  }
}
