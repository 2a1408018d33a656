/** Traffic after the handshake: Conn.Read and Conn.Write of internal/mse/conn.go. */
module MseConn {
  import opened Bytes
  import opened Mse
  import opened MseHandshake
  import opened MseAgreement

  /** Encrypting is the identity on a connection without ciphers. */
  function Seal(u: Suite, encrypted: bool, key: seq<byte>, pos: nat, data: seq<byte>): (out: seq<byte>)
    ensures |out| == |data|
  {
    if encrypted then Crypt(u, key, pos, data) else data
  }

  class Conn {
    const wire: Wire
    const encrypted: bool
    const encKey: seq<byte>
    const decKey: seq<byte>
    var encPos: nat
    var decPos: nat
    var pending: seq<byte>

    /** A side's connection once its handshake is done. */
    constructor (wire: Wire, ready: Ready)
      ensures this.wire == wire && encrypted == ready.encrypted && encKey == ready.encKey && decKey == ready.decKey
      ensures encPos == ready.encPos && decPos == ready.decPos && pending == ready.pending
    {
      this.wire := wire;
      encrypted, encKey, decKey := ready.encrypted, ready.encKey, ready.decKey;
      encPos, decPos, pending := ready.encPos, ready.decPos, ready.pending;
    }

    /** This connection is the writing end of link k, which follows the handshake bytes `base`. */
    ghost predicate WritesTo(base: seq<byte>, k: Link)
      reads this, wire
    {
      wire.Valid() && encrypted == k.encrypted && encKey == k.encKey && encPos == k.encPos && wire.outbox == base + k.wire
    }

    /** This connection is the reading end of link k. */
    ghost predicate ReadsFrom(base: seq<byte>, k: Link)
      reads this, wire
    {
      && wire.Valid() && encrypted == k.encrypted && decKey == k.decKey && decPos == k.decPos && pending == k.pending
      && base + k.wire <= wire.inbox && wire.taken == |base| + k.taken && k.taken <= |k.wire|
    }

    /** Read into a buffer of n bytes, of which the network has `avail` ready; None is the end of the stream. */
    method Read(u: Suite, n: nat, avail: nat, ghost base: seq<byte>, ghost k: Link) returns (data: Option<seq<byte>>)
      requires avail > 0 && ReadsFrom(base, k)
      modifies this, wire
      ensures data.Some? && CanRead(k, |data.value|) ==>
                && ReadsFrom(base, LinkRead(u, k, |data.value|))
                && LinkRead(u, k, |data.value|).read == k.read + data.value
      ensures wire.Valid() && wire.outbox == old(wire.outbox) && encPos == old(encPos)
      ensures old(pending) != [] ==>
                && data == Some(old(pending)[..Min(n, |old(pending)|)]) && pending == old(pending)[Min(n, |old(pending)|)..]
                && wire.taken == old(wire.taken) && decPos == old(decPos)
      ensures old(pending) == [] ==> pending == []
      ensures old(pending) == [] && data.Some? ==>
                && wire.taken == old(wire.taken) + |data.value| && |data.value| <= Min(n, avail)
                && data.value == Seal(u, encrypted, decKey, old(decPos), wire.inbox[old(wire.taken)..wire.taken])
                && decPos == old(decPos) + if encrypted then |data.value| else 0
      ensures old(pending) == [] ==> (data.None? <==> n > 0 && old(wire.Rest()) == [])
      ensures data.None? ==> wire.taken == old(wire.taken) && decPos == old(decPos)
    {
      hide Crypt;
      if |pending| > 0 {
        var m := Min(n, |pending|);
        data := Some(pending[..m]);
        pending := pending[m..];
        return;
      }
      var m := Min(Min(n, avail), |wire.inbox| - wire.taken);
      if m == 0 && n > 0 {
        return None;
      }
      ghost var t := wire.taken;
      var raw := wire.ReadFull(m);
      assert raw.value == wire.inbox[t..t + m];
      StretchOf(base, k.wire, wire.inbox, k.taken, m);
      var p := raw.value;
      if encrypted {
        var c := new Cipher(decKey);
        c.pos := decPos;
        p := c.XorKeyStream(u, p);
        decPos := c.pos;
      }
      data := Some(p);
    }

    method Write(u: Suite, p: seq<byte>, ghost base: seq<byte>, ghost k: Link)
      requires WritesTo(base, k)
      modifies this, wire
      ensures WritesTo(base, LinkWrite(u, k, p)) && LinkWrite(u, k, p).written == k.written + p
      ensures wire.Valid() && wire.taken == old(wire.taken) && decPos == old(decPos) && pending == old(pending)
      ensures wire.outbox == old(wire.outbox) + Seal(u, encrypted, encKey, old(encPos), p)
      ensures encPos == old(encPos) + if encrypted then |p| else 0
    {
      var buf := p;
      if encrypted {
        var c := new Cipher(encKey);
        c.pos := encPos;
        buf := c.XorKeyStream(u, p);
        encPos := c.pos;
      }
      wire.Write(buf);
    }
  }

  // ---------- one direction of an established link ----------

  /**
   * Everything about one direction: what the writer was given, what is on the wire after the
   * handshake and how much of it the reader has taken, and what the reader has handed out.
   */
  datatype Link = Link(encrypted: bool, encKey: seq<byte>, encPos: nat, decKey: seq<byte>, decPos: nat,
                       wire: seq<byte>, taken: nat, pending: seq<byte>, written: seq<byte>, read: seq<byte>)

  /** The effect of Conn.Write on it. */
  function LinkWrite(u: Suite, k: Link, p: seq<byte>): (k': Link) {
    k.(wire := k.wire + Seal(u, k.encrypted, k.encKey, k.encPos, p),
       encPos := k.encPos + (if k.encrypted then |p| else 0), written := k.written + p)
  }

  predicate CanRead(k: Link, n: nat) {
    if k.pending != [] then n <= |k.pending| else k.taken + n <= |k.wire|
  }

  /** The effect of a Conn.Read that returns n bytes: pending bytes first, then bytes off the wire. */
  function LinkRead(u: Suite, k: Link, n: nat): (k': Link)
    requires CanRead(k, n)
  {
    if k.pending != [] then k.(pending := k.pending[n..], read := k.read + k.pending[..n])
    else k.(taken := k.taken + n, decPos := k.decPos + (if k.encrypted then n else 0),
            read := k.read + Seal(u, k.encrypted, k.decKey, k.decPos, k.wire[k.taken..k.taken + n]))
  }

  /** The link a finished handshake leaves in one direction. */
  function Fresh(writer: Ready, reader: Ready): (k: Link) {
    Link(writer.encrypted, writer.encKey, writer.encPos, reader.decKey, reader.decPos, [], 0, reader.pending, [], [])
  }

  datatype Op = WriteOp(data: seq<byte>) | ReadOp(n: nat)

  /** One operation; a read of more than is there is not possible. */
  ghost predicate Steps(u: Suite, k: Link, op: Op, k': Link) {
    match op
    case WriteOp(p) => k' == LinkWrite(u, k, p)
    case ReadOp(n) => CanRead(k, n) && k' == LinkRead(u, k, n)
  }

  /** Any sequence of writes and reads. */
  ghost predicate IsTraffic(u: Suite, ks: seq<Link>, ops: seq<Op>) {
    && |ks| == |ops| + 1
    && forall i :: 0 <= i < |ops| ==> Steps(u, ks[i], ops[i], ks[i + 1])
  }

  /** The reader has handed out the start of `first` followed by all that was written, positions in step. */
  ghost predicate InStep(u: Suite, start: nat, first: seq<byte>, k: Link) {
    && k.encKey == k.decKey && k.taken <= |k.wire| == |k.written|
    && k.wire == Seal(u, k.encrypted, k.encKey, start, k.written)
    && k.encPos == start + (if k.encrypted then |k.written| else 0)
    && k.decPos == start + (if k.encrypted then k.taken else 0)
    && (k.pending != [] ==> k.taken == 0)
    && k.read + k.pending + k.written[k.taken..] == first + k.written
  }

  lemma {:induction false} StretchOf(base: seq<byte>, stream: seq<byte>, all: seq<byte>, i: nat, n: nat)
    requires base + stream <= all
    ensures i + n <= |stream| ==> all[|base| + i..|base| + i + n] == stream[i..i + n]
  {
    if i + n <= |stream| {
      assert all[|base| + i..|base| + i + n] == (base + stream)[|base| + i..|base| + i + n];
    }
  }

  lemma {:induction false} SealSplit(u: Suite, encrypted: bool, key: seq<byte>, pos: nat, a: seq<byte>, b: seq<byte>)
    ensures Seal(u, encrypted, key, pos, a + b)
         == Seal(u, encrypted, key, pos, a) + Seal(u, encrypted, key, pos + (if encrypted then |a| else 0), b)
  {
    hide Crypt;
    CryptSplit(u, key, pos, a, b);
  }

  lemma {:induction false} SealSlice(u: Suite, encrypted: bool, key: seq<byte>, pos: nat, data: seq<byte>, i: nat, j: nat)
    requires i <= j <= |data|
    ensures Seal(u, encrypted, key, pos + (if encrypted then i else 0), Seal(u, encrypted, key, pos, data)[i..j]) == data[i..j]
  {
    hide Crypt;
    DecryptSlice(u, key, pos, data, i, j);
  }

  lemma {:induction false} WriteStaysInStep(u: Suite, start: nat, first: seq<byte>, k: Link, p: seq<byte>)
    requires InStep(u, start, first, k)
    ensures InStep(u, start, first, LinkWrite(u, k, p))
  {
    SealSplit(u, k.encrypted, k.encKey, start, k.written, p);
    hide Seal;
    var x := k.read + k.pending;
    assert (k.written + p)[k.taken..] == k.written[k.taken..] + p;
    assert x + (k.written[k.taken..] + p) == (x + k.written[k.taken..]) + p;
    assert (first + k.written) + p == first + (k.written + p);
  }

  lemma {:induction false} ReadStaysInStep(u: Suite, start: nat, first: seq<byte>, k: Link, n: nat)
    requires InStep(u, start, first, k)
    requires CanRead(k, n)
    ensures InStep(u, start, first, LinkRead(u, k, n))
  {
    hide Seal;
    if k.pending != [] {
      assert k.read + k.pending[..n] + k.pending[n..] == k.read + k.pending;
    } else {
      SealSlice(u, k.encrypted, k.encKey, start, k.written, k.taken, k.taken + n);
      SplitRead(k.read, k.written, k.taken, n);
      assert k.read + [] == k.read;
      assert LinkRead(u, k, n).read == k.read + k.written[k.taken..k.taken + n];
      assert LinkRead(u, k, n).read + [] == LinkRead(u, k, n).read;
    }
  }

  lemma {:induction false} SplitRead(read: seq<byte>, written: seq<byte>, i: nat, n: nat)
    requires i + n <= |written|
    ensures (read + written[i..i + n]) + written[i + n..] == read + written[i..]
  {
    assert written[i..] == written[i..i + n] + written[i + n..];
  }

  /**
   * After the handshake, over any sequence of writes on one side and reads on the other, the reader
   * gets exactly the initial payload followed by what was written, in order, with nothing lost or
   * repeated, and once everything is read the two keystream positions are equal.
   */
  lemma {:induction false} TrafficIsFaithful(u: Suite, writer: Ready, reader: Ready, ks: seq<Link>, ops: seq<Op>)
    requires writer.encrypted == reader.encrypted && writer.encKey == reader.decKey && writer.encPos == reader.decPos
    requires IsTraffic(u, ks, ops) && ks[0] == Fresh(writer, reader)
    ensures var k := ks[|ops|];
            && InStep(u, writer.encPos, reader.pending, k)
            && k.read <= reader.pending + k.written
            && (k.pending == [] && k.taken == |k.wire| ==> k.read == reader.pending + k.written && k.encPos == k.decPos)
    decreases |ops|
  {
    hide InStep, Seal, Steps;
    if |ops| == 0 {
      FreshInStep(u, writer, reader);
    } else {
      var i := |ops| - 1;
      TrafficPrefix(u, ks, ops, i);
      TrafficIsFaithful(u, writer, reader, ks[..i + 1], ops[..i]);
      StepStaysInStep(u, writer.encPos, reader.pending, ks[i], ops[i], ks[i + 1]);
    }
    InStepMeans(u, writer.encPos, reader.pending, ks[|ops|]);
  }

  lemma {:induction false} TrafficPrefix(u: Suite, ks: seq<Link>, ops: seq<Op>, i: nat)
    requires IsTraffic(u, ks, ops) && i < |ops|
    ensures IsTraffic(u, ks[..i + 1], ops[..i]) && ks[..i + 1][0] == ks[0] && ks[..i + 1][i] == ks[i]
    ensures Steps(u, ks[i], ops[i], ks[i + 1])
  {
    hide Steps;
  }

  lemma {:induction false} StepStaysInStep(u: Suite, start: nat, first: seq<byte>, k: Link, op: Op, k': Link)
    requires InStep(u, start, first, k) && Steps(u, k, op, k')
    ensures InStep(u, start, first, k')
  {
    hide InStep, Seal, LinkRead, LinkWrite;
    match op {
      case WriteOp(p) => WriteStaysInStep(u, start, first, k, p);
      case ReadOp(n) => ReadStaysInStep(u, start, first, k, n);
    }
  }

  lemma {:induction false} FreshInStep(u: Suite, writer: Ready, reader: Ready)
    requires writer.encrypted == reader.encrypted && writer.encKey == reader.decKey && writer.encPos == reader.decPos
    ensures InStep(u, writer.encPos, reader.pending, Fresh(writer, reader))
  {
    CryptNothing(u, writer.encKey, writer.encPos);
  }

  lemma {:induction false} InStepMeans(u: Suite, start: nat, first: seq<byte>, k: Link)
    requires InStep(u, start, first, k)
    ensures k.read <= first + k.written
    ensures k.pending == [] && k.taken == |k.wire| ==> k.read == first + k.written && k.encPos == k.decPos
  {
    hide Seal;
    assert k.read + k.pending + k.written[k.taken..] == k.read + (k.pending + k.written[k.taken..]);
  }

  /** The two sides of a handshake that agreed: each reads what the other writes, the initiator's payload first. */
  lemma {:induction false} AgreedSidesTalk(u: Suite, a: Initiator, b: Receiver, ab: seq<Link>, abOps: seq<Op>, ba: seq<Link>, baOps: seq<Op>)
    requires Compatible(u, a, b) && DefaultSelector(a.provide).Some?
    requires IsTraffic(u, ab, abOps) && ab[0] == Fresh(InitiatorReady(u, a, b), ReceiverReady(u, a, b))
    requires IsTraffic(u, ba, baOps) && ba[0] == Fresh(ReceiverReady(u, a, b), InitiatorReady(u, a, b))
    ensures var k := ab[|abOps|];
            && k.read <= a.ia + k.written
            && (k.pending == [] && k.taken == |k.wire| ==> k.read == a.ia + k.written && k.encPos == k.decPos)
    ensures var k := ba[|baOps|];
            && k.read <= k.written
            && (k.pending == [] && k.taken == |k.wire| ==> k.read == k.written && k.encPos == k.decPos)
  {
    hide Compatible, Steps, InitiatorReady, ReceiverReady, Offers, DefaultSelector, SentByA, SentByB, InStep;
    var x, y := InitiatorReady(u, a, b), ReceiverReady(u, a, b);
    ReadySidesMatch(u, a, b);
    TrafficIsFaithful(u, x, y, ab, abOps);
    TrafficIsFaithful(u, y, x, ba, baOps);
    assert [] + ba[|baOps|].written == ba[|baOps|].written;
  }
}
