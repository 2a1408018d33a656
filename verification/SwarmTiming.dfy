/** When handshakes land in the simulated swarm: before anything that needs what they bring, except a tick. */
module SwarmTiming {
  import opened SwarmState

  /** e is run after d. */
  predicate Later(e: Event, d: Event) {
    d.at < e.at || (d.at == e.at && d.seqNo < e.seqNo)
  }

  /** The event that the heap pops: least time, then least sequence number. */
  ghost predicate IsEarliest(queue: seq<Event>, k: int) {
    0 <= k < |queue| && forall j :: 0 <= j < |queue| && j != k ==> Later(queue[j], queue[k])
  }

  /** Event h lands the handshake of c within a latency, and everything that uses side's view comes after it. */
  ghost predicate Lands(w: World, h: int, c: int, side: int) {
    && 0 <= h < |w.queue| && w.queue[h].act == Handshake(c) && w.queue[h].at <= w.now + w.latency
    && forall j :: 0 <= j < |w.queue| && Uses(w.queue[j].act, c, side) ==> Later(w.queue[j], w.queue[h])
  }

  ghost predicate WillLand(w: World, c: int, side: int) {
    exists h :: Lands(w, h, c, side)
  }

  /** Every side of every connection but x has its view, or gets it before anything uses it. */
  ghost predicate TimelyBut(w: World, x: int) {
    && InSequence(w.queue, w.seqNo)
    && forall c, side :: 0 <= c < |w.conns| && c != x && 0 <= side < 2 && !Seen(w.conns, c, side) ==> WillLand(w, c, side)
  }

  ghost predicate Timely(w: World) {
    TimelyBut(w, -1)
  }

  lemma {:induction false} SeenStays(w: World, w': World, c: int, side: int)
    requires Extends(w, w') && Seen(w.conns, c, side)
    ensures Seen(w'.conns, c, side)
  {
    hide Count, Appended;
    assert ViewGrows(ViewOf(w.conns, c, side), ViewOf(w'.conns, c, side));
  }

  /** What lands in time still does after more has been scheduled. */
  lemma {:induction false} LandsStays(w: World, w': World, h: int, c: int, side: int)
    requires Extends(w, w') && InSequence(w.queue, w.seqNo) && Lands(w, h, c, side) && !Seen(w'.conns, c, side)
    ensures Lands(w', h, c, side)
  {
    hide Count, Seen;
    assert w'.queue[h] == w.queue[h];
    forall j | 0 <= j < |w'.queue| && Uses(w'.queue[j].act, c, side) ensures Later(w'.queue[j], w'.queue[h]) {
      if j < |w.queue| {
        assert w'.queue[j] == w.queue[j];
      } else {
        assert NewOk(w, w', w'.queue[j]);
      }
    }
  }

  /** Handlers that make no connection keep it all in time, and the handshake of x has landed if both its sides see. */
  lemma {:induction false} TimelyStays(w: World, w': World, x: int)
    requires TimelyBut(w, x) && Extends(w, w') && |w'.conns| == |w.conns|
    requires 0 <= x < |w.conns| ==> Seen(w'.conns, x, 0) && Seen(w'.conns, x, 1)
    ensures Timely(w')
  {
    hide Count, Seen, Lands, Appended;
    SequenceStays(w, w');
    forall c, side | 0 <= c < |w'.conns| && 0 <= side < 2 && !Seen(w'.conns, c, side) ensures WillLand(w', c, side) {
      if Seen(w.conns, c, side) {
        SeenStays(w, w', c, side);
      }
      var h :| Lands(w, h, c, side);
      LandsStays(w, w', h, c, side);
    }
  }

  lemma {:induction false} SequenceStays(w: World, w': World)
    requires Extends(w, w') && InSequence(w.queue, w.seqNo)
    ensures InSequence(w'.queue, w'.seqNo) && w.queue <= w'.queue
  {
    hide Count;
  }

  /** Every new connection has its handshake scheduled, and nothing new uses a view. */
  ghost predicate Greeted(w: World, w': World, churns: bool) {
    && |w.queue| <= |w'.queue|
    && (forall c :: |w.conns| <= c < |w'.conns| ==> HasHandshake(w, w', c))
    && (forall k :: |w.queue| <= k < |w'.queue| ==> w'.queue[k].act.Handshake? || w'.queue[k].act.Tick? || w'.queue[k].act.ChokeTick? || (churns && w'.queue[k].act.ChurnCheck?))
  }

  ghost predicate HasHandshake(w: World, w': World, c: int) {
    exists h :: |w.queue| <= h < |w'.queue| && w'.queue[h].act == Handshake(c) && w'.queue[h].at == w.now + w.latency
  }

  /** So does a node that joins. */
  lemma {:induction false} TimelyJoined(lengths: seq<nat>, w: World, w': World, churns: bool)
    requires Inv(lengths, w) && Timely(w) && Extends(w, w') && Greeted(w, w', churns)
    ensures Timely(w')
  {
    hide Count, Seen, Lands, Appended, InSequence, NodesOk, ConnsOk, LinksOk, FlowOk, OriginOk;
    SequenceStays(w, w');
    forall c, side | 0 <= c < |w'.conns| && 0 <= side < 2 && !Seen(w'.conns, c, side) ensures WillLand(w', c, side) {
      if c < |w.conns| {
        if Seen(w.conns, c, side) {
          SeenStays(w, w', c, side);
        }
        var h :| Lands(w, h, c, side);
        LandsStays(w, w', h, c, side);
      } else {
        NewHandshakeLands(lengths, w, w', c, side, churns);
      }
    }
  }

  lemma {:induction false} NewHandshakeLands(lengths: seq<nat>, w: World, w': World, c: int, side: int, churns: bool)
    requires Inv(lengths, w) && Extends(w, w') && Greeted(w, w', churns) && |w.conns| <= c < |w'.conns|
    ensures WillLand(w', c, side)
  {
    hide Count, Seen, NodesOk, ConnsOk, LinksOk, FlowOk, OriginOk;
    assert HasHandshake(w, w', c);
    var h :| |w.queue| <= h < |w'.queue| && w'.queue[h].act == Handshake(c) && w'.queue[h].at == w.now + w.latency;
    forall j | 0 <= j < |w'.queue| ensures !Uses(w'.queue[j].act, c, side) {
      if j < |w.queue| {
        assert w'.queue[j] == w.queue[j] && ActOk(w.nodes, w.conns, w.queue[j].act);
      }
    }
    assert Lands(w', h, c, side);
  }

  /** An event that uses no view may be scheduled at any time. */
  lemma {:induction false} TimelyScheduled(w: World, nodes: seq<Node>, pending: int, delay: int, act: Action)
    requires Timely(w) && act.Join?
    ensures Timely(Scheduled(w.(nodes := nodes, pending := pending), delay, act))
  {
    hide Seen;
    var w' := Scheduled(w.(nodes := nodes, pending := pending), delay, act);
    forall c, side | 0 <= c < |w'.conns| && 0 <= side < 2 && !Seen(w'.conns, c, side) ensures WillLand(w', c, side) {
      var h :| Lands(w, h, c, side);
      assert Lands(w', h, c, side);
    }
  }

  /** The world in which event k is run: it is out of the queue, and its time is the present. */
  function Popped(w: World, k: int): (w': World)
    requires 0 <= k < |w.queue|
  {
    w.(queue := w.queue[..k] + w.queue[k + 1..], now := w.queue[k].at)
  }

  /** Nothing is used before it is there, and only the handshake that is landing now may be missing. */
  lemma {:induction false} TimelyPopped(w: World, k: int)
    requires Timely(w) && IsEarliest(w.queue, k) && w.now <= w.queue[k].at
    ensures TimelyBut(Popped(w, k), if w.queue[k].act.Handshake? then w.queue[k].act.conn else -1)
    ensures NeedsView(w.queue[k].act) && IsSide(w.conns, w.queue[k].act.conn, w.queue[k].act.side) ==> Seen(w.conns, w.queue[k].act.conn, w.queue[k].act.side)
  {
    hide Seen, Lands;
    var w', act := Popped(w, k), w.queue[k].act;
    forall c, side | 0 <= c < |w.conns| && 0 <= side < 2 && !Seen(w.conns, c, side)
      ensures !Uses(act, c, side) && (act != Handshake(c) ==> WillLand(w', c, side))
    {
      var h :| Lands(w, h, c, side);
      LandsAfterPop(w, k, h, c, side);
    }
    SequenceAfterPop(w, k);
  }

  lemma {:induction false} SequenceAfterPop(w: World, k: int)
    requires InSequence(w.queue, w.seqNo) && 0 <= k < |w.queue|
    ensures InSequence(Popped(w, k).queue, w.seqNo)
  {
    var q := Popped(w, k).queue;
    assert forall j :: 0 <= j < |q| ==> q[j] == w.queue[if j < k then j else j + 1];
  }

  lemma {:induction false} LandsAfterPop(w: World, k: int, h: int, c: int, side: int)
    requires IsEarliest(w.queue, k) && Lands(w, h, c, side) && w.now <= w.queue[k].at
    ensures !Uses(w.queue[k].act, c, side)
    ensures w.queue[k].act != Handshake(c) ==> WillLand(Popped(w, k), c, side)
  {
    if w.queue[k].act != Handshake(c) {
      var w' := Popped(w, k);
      var q, h' := w'.queue, if h < k then h else h - 1;
      assert Later(w.queue[h], w.queue[k]);
      assert forall j :: 0 <= j < |q| ==> q[j] == w.queue[if j < k then j else j + 1];
      assert q[h'] == w.queue[h];
      assert Lands(w', h', c, side);
    }
  }

  lemma {:induction false} OthersAreLater(queue: seq<Event>, k: int, j: int)
    requires IsEarliest(queue, k) && 0 <= j < |queue| && j != k
    ensures Later(queue[j], queue[k]) && !Later(queue[k], queue[j])
  {
  }

  lemma {:induction false} EarliestIsUnique(queue: seq<Event>, j: int, k: int)
    requires IsEarliest(queue, j) && IsEarliest(queue, k)
    ensures j == k
  {
    if j != k {
      OthersAreLater(queue, k, j);
    }
  }

  // ---------- swarms in which every handshake comes before the first tick ----------

  /** Every node is there from the start, none comes or goes later, and no tick comes before all handshakes have landed. */
  ghost predicate Calm(w: World) {
    && 0 <= w.now && 0 < w.latency < w.tick && forall k :: 0 <= k < |w.queue| ==> IsCalm(w, w.queue[k])
  }

  predicate IsCalm(w: World, e: Event) {
    && !e.act.ChurnCheck?
    && (e.act.Join? ==> e.at == 0)
    && (e.act.Handshake? ==> e.at <= w.latency)
    && (e.act.Tick? ==> e.at >= w.tick)
  }

  lemma {:induction false} CalmPopped(w: World, k: int)
    requires Calm(w) && 0 <= k < |w.queue| && w.now <= w.queue[k].at
    ensures Calm(Popped(w, k))
  {
    var w' := Popped(w, k);
    forall j | 0 <= j < |w'.queue| ensures IsCalm(w', w'.queue[j]) {
      assert w'.queue[j] == w.queue[if j < k then j else j + 1];
      assert IsCalm(w, w.queue[if j < k then j else j + 1]);
    }
  }

  lemma {:induction false} CalmStays(w: World, w': World)
    requires Calm(w) && Extends(w, w') && (Quiet(w, w') || (w.now == 0 && Greeted(w, w', false)))
    ensures Calm(w')
  {
    hide Count;
    forall j | 0 <= j < |w'.queue| ensures IsCalm(w', w'.queue[j]) {
      if j < |w.queue| {
        assert w'.queue[j] == w.queue[j] && IsCalm(w, w.queue[j]);
      } else {
        assert NewOk(w, w', w'.queue[j]);
      }
    }
  }

  /** When a tick comes, every handshake has landed. */
  lemma {:induction false} CalmSees(lengths: seq<nat>, w: World, k: int, c: int, side: int)
    requires Inv(lengths, w) && Calm(w) && Timely(w) && IsEarliest(w.queue, k) && w.queue[k].act.Tick?
    requires 0 <= c < |w.conns| && 0 <= side < 2
    ensures Seen(w.conns, c, side)
  {
    hide Inv, Seen;
  }
}
