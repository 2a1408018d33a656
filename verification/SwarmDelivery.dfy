/** What a delivered block, and a handshake that lands, change before requests follow: deliverBlock, broadcastHave and connect of internal/simulator/events.go. */
module SwarmDelivery {
  import opened Bytes
  import opened Blocks
  import opened PickerState
  import AvailabilityIndex
  import opened SwarmState

  /** The request is answered, even when nobody is there to receive it. */
  function Answered(w: World, c: int, side: int, length: int): (w': World)
    requires 0 <= c < |w.conns| && 0 <= side < |w.conns[c].ends| && side < |w.conns[c].nodes| && 0 <= w.conns[c].nodes[side] < |w.nodes|
    ensures w'.nodes == w.nodes
  {
    var e := w.conns[c].ends[side];
    var less := e.(outstanding := e.outstanding - 1);
    WithEnd(w, c, side, if w.nodes[w.conns[c].nodes[side]].online then less.(received := e.received + length) else less)
  }

  ghost predicate IsAnswered(w: World, w': World, c: int, side: int, length: int) {
    0 <= c < |w.conns| && 0 <= side < 2 && ConnOk(w.nodes, w.conns[c]) && w' == Answered(w, c, side, length)
  }

  lemma {:induction false} EndTwice(w: World, c: int, side: int, e: End, e': End)
    requires 0 <= c < |w.conns| && 0 <= side < |w.conns[c].ends|
    ensures WithEnd(WithEnd(w, c, side, e), c, side, e') == WithEnd(w, c, side, e')
  {
    var ends := w.conns[c].ends;
    assert ends[side := e][side := e'] == ends[side := e'];
  }

  function WithPick(w: World, i: int, pick: State): (w': World)
    requires 0 <= i < |w.nodes|
  {
    w.(nodes := w.nodes[i := w.nodes[i].(pick := pick)])
  }

  /** A piece is done: the bitfield, the picker, and with the last piece the node's completion. */
  ghost function Verified(w: World, i: int, index: int): (w': World)
    requires 0 <= i < |w.nodes|
  {
    var n := w.nodes[i];
    var pick := MarkVerified(n.pick, index);
    var finished := n.completedAt.None? && Valid(pick) && Finished(pick);
    w.(nodes := w.nodes[i := n.(have := n.have + {index}, pick := pick, completedAt := if finished then Some(w.now) else n.completedAt)],
       pending := if finished then w.pending - 1 else w.pending)
  }

  /** A Have for each of these peers, one latency away. */
  ghost function Tidings(w: World, i: int, ids: seq<int>, index: int): (events: seq<Event>)
    requires AreLinks(w, i, ids)
  {
    seq(|ids|, k requires 0 <= k < |ids| => Event(w.now + w.latency, w.seqNo + 1 + k, HaveFor(w, i, ids[k], index)))
  }

  ghost function HaveFor(w: World, i: int, p: int, index: int): (act: Action)
    requires IsLink(w, i, p)
  {
    var c := w.nodes[i].conns[p];
    HaveArrives(c, 1 - IndexOf(w.conns[c], i), index)
  }

  ghost function HavesSent(w: World, i: int, ids: seq<int>, index: int): (w': World)
    requires AreLinks(w, i, ids)
  {
    w.(queue := w.queue + Tidings(w, i, ids, index), seqNo := w.seqNo + |ids|)
  }

  lemma {:induction false} OneMoreHave(w: World, i: int, ids: seq<int>, index: int, k: nat)
    requires AreLinks(w, i, ids) && k < |ids|
    ensures AreLinks(w, i, ids[..k]) && AreLinks(w, i, ids[..k + 1]) && IsLink(w, i, ids[k])
    ensures HavesSent(w, i, ids[..k + 1], index) == Scheduled(HavesSent(w, i, ids[..k], index), w.latency, HaveFor(w, i, ids[k], index))
  {
    assert forall j :: 0 <= j < k + 1 ==> ids[..k + 1][j] == ids[j];
    assert forall j :: 0 <= j < k ==> ids[..k][j] == ids[j];
    assert IsLink(w, i, ids[k]);
    hide IsLink, HaveFor;
    assert Tidings(w, i, ids[..k + 1], index) == Tidings(w, i, ids[..k], index) + [Event(w.now + w.latency, w.seqNo + 1 + k, HaveFor(w, i, ids[k], index))];
  }

  lemma {:induction false} NoHaves(w: World, i: int, index: int)
    ensures AreLinks(w, i, []) && HavesSent(w, i, [], index) == w
  {
    assert Tidings(w, i, [], index) == [];
  }

  /** The block in the requester's hands: its picker takes note, and a piece that is done is announced to all peers. */
  ghost predicate TakenIn(w: World, w': World, i: int, ids: seq<int>, req: Request) {
    0 <= i < |w.nodes| && AreLinks(w, i, ids) && (forall p :: p in ids <==> p in w.nodes[i].conns) &&
    var (pick, done, wanted) := Received(w.nodes[i].pick, req.index, req.begin, req.length);
    var w1 := WithPick(w, i, pick);
    if wanted && done then AreLinks(Verified(w1, i, req.index), i, ids) && w' == HavesSent(Verified(w1, i, req.index), i, ids, req.index)
    else w' == w1
  }

  /** What has happened to a delivered block before requests follow it. */
  ghost predicate HasArrived(w: World, w': World, c: int, side: int, req: Request, ids: seq<int>) {
    0 <= c < |w.conns| && 0 <= side < 2 && ConnOk(w.nodes, w.conns[c]) &&
    var to, from := w.conns[c].nodes[side], w.conns[c].nodes[1 - side];
    var w1 := Answered(w, c, side, req.length);
    if w.nodes[to].online then TakenIn(Moved(w1, from, to, req.length), w', to, ids, req) else w' == w1
  }

  /** A node counts these pieces once more. */
  function WithMore(w: World, i: int, have: set<int>): (w': World)
    requires 0 <= i < |w.nodes|
  {
    var n := w.nodes[i];
    w.(nodes := w.nodes[i := n.(pick := n.pick.(avail := AvailabilityIndex.Added(n.pick.avail, have)))])
  }

  /** One side of a handshake: a snapshot of the far side's pieces, counted, and whether there is anything in it to want. */
  ghost predicate Shook(w: World, w': World, c: int, m: int) {
    0 <= c < |w.conns| && 0 <= m < 2 && ConnOk(w.nodes, w.conns[c]) &&
    var self, view := w.conns[c].nodes[m], w.nodes[w.conns[c].nodes[1 - m]].have;
    var seen := w.conns[c].ends[m].(view := Some(view));
    var w1 := WithMore(WithEnd(w, c, m, seen), self, view);
    var n := w1.nodes[self];
    Valid(n.pick) && w' == WithEnd(w1, c, m, seen.(interested := !Finished(n.pick) && view - n.have != {}))
  }

  // ---------- what this comes to ----------

  /** The answer: one request fewer outstanding, received or not, and nothing else in any connection but the bytes received. */
  lemma {:induction false} AnswerMeans(w: World, w': World, c: int, side: int, req: Request, ids: seq<int>)
    requires HasArrived(w, w', c, side, req, ids)
    ensures |w'.conns| == |w.conns| && |w'.conns[c].ends| == 2 && w'.conns[c].nodes == w.conns[c].nodes
    ensures forall d :: 0 <= d < |w.conns| && d != c ==> w'.conns[d] == w.conns[d]
    ensures w'.conns[c].ends[1 - side] == w.conns[c].ends[1 - side]
    ensures var e, e' := w.conns[c].ends[side], w'.conns[c].ends[side];
            && e'.outstanding == e.outstanding - 1
            && e'.received == e.received + (if w.nodes[w.conns[c].nodes[side]].online then req.length else 0)
            && e'.view == e.view && e'.interested == e.interested && e'.choking == e.choking
  {
    hide Verified, MarkVerified, Received, Tidings, AreLinks, Moved;
    MovedAlone(Answered(w, c, side, req.length), w.conns[c].nodes[1 - side], w.conns[c].nodes[side], req.length);
    TakenAlone(w, w', c, side, req, ids);
  }

  lemma {:induction false} MovedAlone(w: World, from: int, to: int, length: int)
    requires 0 <= from < |w.nodes| && 0 <= to < |w.nodes| && from != to
    ensures Moved(w, from, to, length) == w.(nodes := Moved(w, from, to, length).nodes) && |Moved(w, from, to, length).nodes| == |w.nodes|
  {
  }

  lemma {:induction false} TakenAlone(w: World, w': World, c: int, side: int, req: Request, ids: seq<int>)
    requires HasArrived(w, w', c, side, req, ids)
    ensures w'.conns == Answered(w, c, side, req.length).conns && w'.now == w.now && w'.latency == w.latency
  {
    hide MarkVerified, Received, Tidings, AreLinks;
  }

  /** Nobody there: nothing else happens. */
  lemma {:induction false} ArrivesNowhere(w: World, w': World, c: int, side: int, req: Request, ids: seq<int>)
    requires HasArrived(w, w', c, side, req, ids) && !w.nodes[w.conns[c].nodes[side]].online
    ensures w' == w.(conns := w'.conns)
  {
  }

  /**
   * The block: its bytes are credited to the one and debited to the other; the picker counts it; and with the last
   * block of a piece the piece is had, a node that now has them all is complete, and every linked peer is sent a Have.
   */
  lemma {:induction false} ArrivalMeans(lengths: seq<nat>, w: World, w': World, c: int, side: int, req: Request, ids: seq<int>)
    requires Inv(lengths, w) && HasArrived(w, w', c, side, req, ids) && w.nodes[w.conns[c].nodes[side]].online
    ensures Arrival(lengths, w, w', w.conns[c].nodes[side], w.conns[c].nodes[1 - side], ids, req)
  {
    hide Inv, NodeOk, TakenIn, Arrival, Answered, SameCourse, EndOk;
    var to, from := w.conns[c].nodes[side], w.conns[c].nodes[1 - side];
    var w1 := Answered(w, c, side, req.length);
    NodeIsOk(lengths, w, to);
    BytesOnly(lengths, w.nodes[to], req.length);
    MoveMeans(w, w1, c, side, from, to, req.length);
    MovedThenTaken(lengths, w, Moved(w1, from, to, req.length), w', to, from, ids, req);
  }

  ghost predicate Arrival(lengths: seq<nat>, w: World, w': World, to: int, from: int, ids: seq<int>, req: Request) {
    && |w'.nodes| == |w.nodes| && 0 <= to < |w.nodes| && 0 <= from < |w.nodes|
    && (forall i :: 0 <= i < |w.nodes| && i != to && i != from ==> w'.nodes[i] == w.nodes[i])
    && w'.nodes[from] == w.nodes[from].(bytesUp := w.nodes[from].bytesUp + req.length)
    && Changed(lengths, w, w', to, ids, req, Received(w.nodes[to].pick, req.index, req.begin, req.length))
  }

  lemma {:induction false} MovedThenTaken(lengths: seq<nat>, w: World, w2: World, w': World, to: int, from: int, ids: seq<int>, req: Request)
    requires 0 <= to < |w.nodes| && 0 <= from < |w.nodes| && to != from && |w2.nodes| == |w.nodes| && SameCourse(w, w2)
    requires w2.nodes[to] == w.nodes[to].(bytesDown := w.nodes[to].bytesDown + req.length)
    requires w2.nodes[from] == w.nodes[from].(bytesUp := w.nodes[from].bytesUp + req.length)
    requires forall i :: 0 <= i < |w.nodes| && i != to && i != from ==> w2.nodes[i] == w.nodes[i]
    requires NodeOk(lengths, w2.nodes[to]) && TakenIn(w2, w', to, ids, req)
    ensures Arrival(lengths, w, w', to, from, ids, req)
  {
    hide NodeOk, TakenIn, Changed, SameCourse, Received;
    TakenMeans(lengths, w2, w', to, ids, req);
    ChangedSince(lengths, w, w2, w', to, ids, req);
  }

  lemma {:induction false} BytesOnly(lengths: seq<nat>, n: Node, length: int)
    requires NodeOk(lengths, n)
    ensures NodeOk(lengths, n.(bytesDown := n.bytesDown + length))
  {
  }

  /** Up to the picker, only bytes are counted. */
  lemma {:induction false} MoveMeans(w: World, w1: World, c: int, side: int, from: int, to: int, length: int)
    requires 0 <= c < |w.conns| && 0 <= side < 2 && ConnOk(w.nodes, w.conns[c]) && w1 == Answered(w, c, side, length)
    requires to == w.conns[c].nodes[side] && from == w.conns[c].nodes[1 - side]
    ensures var w2 := Moved(w1, from, to, length);
            && |w2.nodes| == |w.nodes| && w2.nodes[to] == w.nodes[to].(bytesDown := w.nodes[to].bytesDown + length)
            && w2.nodes[from] == w.nodes[from].(bytesUp := w.nodes[from].bytesUp + length)
            && (forall i :: 0 <= i < |w.nodes| && i != to && i != from ==> w2.nodes[i] == w.nodes[i])
            && SameCourse(w, w2)
  {
  }

  /** The same queue, clock and counters, and the same nodes at the ends of the same connections. */
  ghost predicate SameCourse(w: World, w': World) {
    && w'.queue == w.queue && w'.seqNo == w.seqNo && w'.now == w.now && w'.latency == w.latency && w'.pending == w.pending
    && |w'.conns| == |w.conns| && forall d :: 0 <= d < |w.conns| ==> w'.conns[d].nodes == w.conns[d].nodes
  }

  lemma {:induction false} TakenMeans(lengths: seq<nat>, w: World, w': World, i: int, ids: seq<int>, req: Request)
    requires 0 <= i < |w.nodes| && NodeOk(lengths, w.nodes[i]) && TakenIn(w, w', i, ids, req)
    ensures |w'.nodes| == |w.nodes| && (forall j :: 0 <= j < |w.nodes| && j != i ==> w'.nodes[j] == w.nodes[j])
    ensures Changed(lengths, w, w', i, ids, req.(length := 0), Received(w.nodes[i].pick, req.index, req.begin, req.length))
  {
    hide NodeOk, AreLinks, MarkVerified, Tidings, Announced, HasAll, Valid;
    var n := w.nodes[i];
    ReceivedKeepsNode(lengths, n, req.index, req.begin, req.length);
    hide Received;
    var (pick, done, wanted) := Received(n.pick, req.index, req.begin, req.length);
    if wanted && done {
      LastMissing(lengths, n, pick, req.index);
      var w3 := Verified(WithPick(w, i, pick), i, req.index);
      AnnouncedBy(w, w3, w', i, ids, req.index);
    }
  }

  lemma {:induction false} LastMissing(lengths: seq<nat>, n: Node, pick: State, index: int)
    requires NodeOk(lengths, n) && NodeOk(lengths, n.(pick := pick)) && !HasAll(lengths, n.have) && 0 <= index < |lengths|
    ensures n.completedAt.None? && Valid(MarkVerified(pick, index)) && MarkVerified(pick, index).have == n.have + {index}
    ensures Finished(MarkVerified(pick, index)) <==> HasAll(lengths, n.have + {index})
  {
    hide NoNewWork;
    MarkVerifiedKeeps(pick, index);
    hide Valid, HasAll;
    FinishedHasNothingActive(MarkVerified(pick, index));
  }

  lemma {:induction false} AnnouncedBy(w: World, w3: World, w': World, i: int, ids: seq<int>, index: int)
    requires 0 <= i < |w.nodes| == |w3.nodes| && AreLinks(w, i, ids) && AreLinks(w3, i, ids) && w' == HavesSent(w3, i, ids, index)
    requires w3.nodes[i].conns == w.nodes[i].conns && w3.conns == w.conns
    requires w3.queue == w.queue && w3.seqNo == w.seqNo && w3.now == w.now && w3.latency == w.latency
    requires forall p :: p in ids <==> p in w.nodes[i].conns
    ensures Announced(w, w', i, ids, index)
  {
    AllOnce(ids, w.nodes[i].conns.Keys);
    assert |w.nodes[i].conns.Keys| == |w.nodes[i].conns|;
    forall k | 0 <= k < |ids| ensures IsHaveFor(w, i, ids[k], w'.queue[|w.queue| + k], w.seqNo + 1 + k, index) {
      assert IsLink(w3, i, ids[k]) && IsLink(w, i, ids[k]);
    }
  }

  lemma {:induction false} AllOnce(ids: seq<int>, all: set<int>)
    requires (forall k, l :: 0 <= k < l < |ids| ==> ids[k] < ids[l]) && forall p :: p in ids <==> p in all
    ensures |ids| == |all|
    decreases |ids|
  {
    if ids == [] {
      if all != {} {
        var p := SomeMember(all);
      }
    } else {
      var last := ids[|ids| - 1];
      assert ids == ids[..|ids| - 1] + [last];
      AllOnce(ids[..|ids| - 1], all - {last});
      assert last in all;
    }
  }

  lemma {:induction false} ChangedSince(lengths: seq<nat>, w: World, w2: World, w': World, to: int, ids: seq<int>, req: Request)
    requires 0 <= to < |w.nodes| == |w2.nodes| == |w'.nodes| && SameCourse(w, w2)
    requires w2.nodes[to] == w.nodes[to].(bytesDown := w.nodes[to].bytesDown + req.length)
    requires Changed(lengths, w2, w', to, ids, req.(length := 0), Received(w.nodes[to].pick, req.index, req.begin, req.length))
    ensures Changed(lengths, w, w', to, ids, req, Received(w.nodes[to].pick, req.index, req.begin, req.length))
  {
    hide HasAll, Received, IsHaveFor;
    forall k | 0 <= k < |ids| && Announced(w2, w', to, ids, req.index)
      ensures IsHaveFor(w, to, ids[k], w'.queue[|w.queue| + k], w.seqNo + 1 + k, req.index)
    {
      SameHave(w, w2, to, ids[k], w'.queue[|w.queue| + k], w.seqNo + 1 + k, req.index);
    }
  }

  lemma {:induction false} SameHave(w: World, w2: World, i: int, p: int, e: Event, seqNo: int, index: int)
    requires 0 <= i < |w.nodes| == |w2.nodes| && SameCourse(w, w2) && w2.nodes[i].conns == w.nodes[i].conns && IsHaveFor(w2, i, p, e, seqNo, index)
    ensures IsHaveFor(w, i, p, e, seqNo, index)
  {
  }

  /** What becomes of the requester, and of the queue. */
  ghost predicate Changed(lengths: seq<nat>, w: World, w': World, to: int, ids: seq<int>, req: Request, received: (State, bool, bool))
    requires 0 <= to < |w.nodes| == |w'.nodes|
  {
    var n, n' := w.nodes[to], w'.nodes[to];
    var (pick, done, wanted) := received;
    && n' == n.(bytesDown := n.bytesDown + req.length, pick := n'.pick, have := n'.have, completedAt := n'.completedAt)
    && if wanted && done then
         && n'.pick == MarkVerified(pick, req.index) && n'.have == n.have + {req.index}
         && n.completedAt.None? && n'.completedAt == (if HasAll(lengths, n'.have) then Some(w.now) else None)
         && w'.pending == w.pending - (if HasAll(lengths, n'.have) then 1 else 0)
         && Announced(w, w', to, ids, req.index)
       else
         && n'.pick == pick && n'.have == n.have && n'.completedAt == n.completedAt && w'.pending == w.pending
         && w'.queue == w.queue && w'.seqNo == w.seqNo
  }

  /** One Have for each peer of a node, in their order, to arrive a latency later. */
  ghost predicate Announced(w: World, w': World, i: int, ids: seq<int>, index: int)
    requires 0 <= i < |w.nodes|
  {
    && |ids| == |w.nodes[i].conns| && (forall p :: p in ids <==> p in w.nodes[i].conns)
    && |w'.queue| == |w.queue| + |ids| && w'.queue[..|w.queue|] == w.queue && w'.seqNo == w.seqNo + |ids|
    && forall k :: 0 <= k < |ids| ==> IsHaveFor(w, i, ids[k], w'.queue[|w.queue| + k], w.seqNo + 1 + k, index)
  }

  ghost predicate IsHaveFor(w: World, i: int, p: int, e: Event, seqNo: int, index: int)
    requires 0 <= i < |w.nodes|
  {
    && e.at == w.now + w.latency && e.seqNo == seqNo && e.act.HaveArrives? && e.act.index == index
    && p in w.nodes[i].conns && e.act.conn == w.nodes[i].conns[p]
    && 0 <= e.act.conn < |w.conns| && 0 <= e.act.side < |w.conns[e.act.conn].nodes| && w.conns[e.act.conn].nodes[e.act.side] == p
  }

  lemma {:induction false} NodeIsOk(lengths: seq<nat>, w: World, i: int)
    requires Inv(lengths, w) && 0 <= i < |w.nodes|
    ensures NodeOk(lengths, w.nodes[i])
  {
  }

  /** A side now has a true view, counted once, and is interested if it lacks anything in it. */
  ghost predicate Sees(w: World, w': World, c: int, m: int) {
    && 0 <= c < |w.conns| && 0 <= m < 2 && ConnOk(w.nodes, w.conns[c]) && |w'.nodes| == |w.nodes| && |w'.conns| == |w.conns| && |w'.conns[c].ends| == 2 &&
    var i, far := w.conns[c].nodes[m], w.nodes[w.conns[c].nodes[1 - m]];
    && w'.conns[c].ends[m] == w.conns[c].ends[m].(view := Some(far.have), interested := far.have - w.nodes[i].have != {})
    && CountsMore(w.nodes[i], w'.nodes[i], far.have)
  }

  ghost predicate CountsMore(n: Node, n': Node, have: set<int>) {
    && |n'.pick.avail| == |n.pick.avail| && n' == n.(pick := n.pick.(avail := n'.pick.avail))
    && forall i :: 0 <= i < |n.pick.avail| ==> n'.pick.avail[i] == n.pick.avail[i] + if i in have then 1 else 0
  }

  /** Nothing has changed but one side of a connection, and the node there. */
  ghost predicate OnlySide(w: World, w': World, c: int, m: int) {
    && 0 <= c < |w.conns| && 0 <= m < 2 && ConnOk(w.nodes, w.conns[c]) && |w'.nodes| == |w.nodes| && |w'.conns| == |w.conns| && |w'.conns[c].ends| == 2
    && w' == w.(nodes := w.nodes[w.conns[c].nodes[m] := w'.nodes[w.conns[c].nodes[m]]],
                conns := w.conns[c := w.conns[c].(ends := w.conns[c].ends[m := w'.conns[c].ends[m]])])
  }

  /** Both sides of a handshake that lands see; no other node or connection has changed, and nothing is on its way yet. */
  lemma {:induction false} HandshakeMeans(lengths: seq<nat>, w: World, w1: World, w2: World, c: int)
    requires Inv(lengths, w) && Shook(w, w1, c, 0) && Shook(w1, w2, c, 1)
    ensures Sees(w, w2, c, 0) && Sees(w, w2, c, 1) && OnlySide(w, w1, c, 0) && OnlySide(w1, w2, c, 1)
  {
    hide Inv, NodeOk, Shook, CountsMore, EndOk;
    ShookConn(w, w1, c, 0);
    NodeIsOk(lengths, w, w.conns[c].nodes[0]);
    NodeIsOk(lengths, w, w.conns[c].nodes[1]);
    SideShook(lengths, w, w1, c, 0);
    SameFar(w, w1, c);
    SideShook(lengths, w1, w2, c, 1);
  }

  lemma {:induction false} ShookConn(w: World, w': World, c: int, m: int)
    requires Shook(w, w', c, m)
    ensures 0 <= c < |w.conns| && ConnOk(w.nodes, w.conns[c])
  {
  }

  lemma {:induction false} SameFar(w: World, w1: World, c: int)
    requires OnlySide(w, w1, c, 0)
    ensures w1.conns[c].nodes == w.conns[c].nodes && w1.nodes[w.conns[c].nodes[1]] == w.nodes[w.conns[c].nodes[1]]
    ensures w1.conns[c].ends[1] == w.conns[c].ends[1]
  {
  }

  lemma {:induction false} SideShook(lengths: seq<nat>, w: World, w': World, c: int, m: int)
    requires Shook(w, w', c, m) && NodeOk(lengths, w.nodes[w.conns[c].nodes[m]]) && NodeOk(lengths, w.nodes[w.conns[c].nodes[1 - m]])
    ensures Sees(w, w', c, m) && OnlySide(w, w', c, m) && NodeOk(lengths, w'.nodes[w.conns[c].nodes[m]])
    ensures w'.nodes[w.conns[c].nodes[m]].have == w.nodes[w.conns[c].nodes[m]].have
  {
    hide HasAll;
    var i, have := w.conns[c].nodes[m], w.nodes[w.conns[c].nodes[1 - m]].have;
    var n := w.nodes[i];
    AvailChanges(lengths, n, AvailabilityIndex.Added(n.pick.avail, have));
    var pick := n.pick.(avail := AvailabilityIndex.Added(n.pick.avail, have));
    FinishedHasNothingActive(pick);
    EndTwice(w, c, m, w.conns[c].ends[m].(view := Some(have)), w'.conns[c].ends[m]);
    if Finished(pick) {
      assert HasAll(lengths, n.have);
      NothingToWant(lengths, w.nodes[w.conns[c].nodes[1 - m]], n);
    }
  }

  lemma {:induction false} NothingToWant(lengths: seq<nat>, far: Node, n: Node)
    requires NodeOk(lengths, far) && HasAll(lengths, n.have)
    ensures far.have - n.have == {}
  {
    hide Sound;
    forall p | p in far.have ensures p in n.have {
      assert IsPiece(far.pick, p);
    }
  }
}
