/** The swarm simulator's event handlers and its run loop: internal/simulator (events.go, swarm.go, run.go, clock.go). */
module Simulator {
  import opened Bytes
  import opened Blocks
  import PickerState
  import AvailabilityIndex
  import Picker
  import opened SwarmState
  import opened SwarmTiming
  import Choking
  import opened SwarmChoking
  import opened SwarmDelivery

  const SECOND := 1_000_000_000

  /** Durations are nanoseconds; churn is "ChurnProbability is positive". */
  datatype SimConfig = SimConfig(totalLength: int, pieceLength: int, latency: int, maxPeers: int, chokerSlots: int, tickInterval: int, chokeInterval: int,
                                 churnInterval: int, churn: bool, offlineMin: int, offlineMax: int, stopWhenComplete: bool, maxDuration: int)

  function OrDefault(value: int, default_: int): (v: int) {
    if value <= 0 then default_ else value
  }

  function WithDefaults(c: SimConfig): (d: SimConfig) {
    c.(maxPeers := OrDefault(c.maxPeers, 30), chokerSlots := OrDefault(c.chokerSlots, 4), tickInterval := OrDefault(c.tickInterval, SECOND),
       chokeInterval := OrDefault(c.chokeInterval, 10 * SECOND), offlineMin := OrDefault(c.offlineMin, 30 * SECOND),
       offlineMax := OrDefault(c.offlineMax, 300 * SECOND), maxDuration := OrDefault(c.maxDuration, 86400 * SECOND),
       latency := OrDefault(c.latency, 50_000_000))
  }

  ghost predicate HasDefaults(c: SimConfig) {
    c.latency > 0 && c.chokerSlots > 0 && c.tickInterval > 0 && c.chokeInterval > 0 && c.offlineMin > 0
  }

  function NumPieces(c: SimConfig): (n: int)
    requires c.pieceLength > 0
  {
    (c.totalLength + c.pieceLength - 1) / c.pieceLength
  }

  /** pieceLen: every piece is whole but the last. */
  function PieceLen(c: SimConfig, index: int): (n: int)
    requires c.pieceLength > 0
  {
    if index < 0 || index >= NumPieces(c) then 0
    else if index == NumPieces(c) - 1 then c.totalLength - (NumPieces(c) - 1) * c.pieceLength
    else c.pieceLength
  }

  /** The simulated pieces tile the simulated torrent. */
  lemma {:induction false} PieceLensTile(c: SimConfig, index: int)
    requires c.totalLength > 0 && c.pieceLength > 0 && 0 <= index < NumPieces(c)
    ensures NumPieces(c) > 0 && 0 < PieceLen(c, index) <= c.pieceLength
    ensures index * c.pieceLength + PieceLen(c, index) == if index + 1 < NumPieces(c) then (index + 1) * c.pieceLength else c.totalLength
  {
    var n, d := NumPieces(c), c.pieceLength;
    var x := c.totalLength + d - 1;
    assert x == d * n + x % d;
    assert (n - 1) * d == n * d - d;
    assert (index + 1) * d == index * d + d;
  }

  datatype Outcome = Outcome(elapsed: int, completed: bool, nodes: seq<Node>)

  class Swarm {
    const cfg: SimConfig
    const lengths: seq<nat>
    var nodes: seq<Node>
    var conns: seq<Conn>
    var queue: seq<Event>
    var now: int
    var seqNo: int
    var pending: int
    /** A nil view was dereferenced; the run is over. */
    var crashed: bool

    ghost function View(): (w: World)
      reads this
    {
      World(nodes, conns, queue, now, seqNo, pending, crashed, cfg.latency, cfg.tickInterval)
    }

    ghost predicate Sound()
      reads this
    {
      HasDefaults(cfg) && Inv(lengths, View())
    }

    /** In addition names are unique and not empty, and every handshake lands in time. */
    ghost predicate Valid()
      reads this
    {
      Sound() && NamesOk(nodes) && Timely(View())
    }

    /** NewSwarm once its checks have passed. */
    constructor (cfg: SimConfig)
      requires cfg.totalLength > 0 && cfg.pieceLength > 0
      ensures Valid() && this.cfg == WithDefaults(cfg) && View() == World([], [], [], 0, 0, 0, false, WithDefaults(cfg).latency, WithDefaults(cfg).tickInterval)
      ensures |lengths| == NumPieces(cfg) && forall i :: 0 <= i < |lengths| ==> lengths[i] == PieceLen(cfg, i)
    {
      this.cfg := WithDefaults(cfg);
      PieceLensTile(cfg, 0);
      lengths := seq(NumPieces(cfg), i requires 0 <= i < NumPieces(cfg) => PieceLenNat(cfg, i));
      nodes, conns, queue, now, seqNo, pending, crashed := [], [], [], 0, 0, 0, false;
    }

    // ---------- scheduling ----------

    /** Clock.After. */
    method After(delay: int, act: Action)
      requires Sound() && ActOk(nodes, conns, act)
      requires act.Serve? || act.Deliver? ==> Count(queue, Transfer(act.conn, act.side)) < OutstandingOf(conns, act.conn, act.side)
      modifies this
      ensures Sound() && View() == Scheduled(old(View()), if delay < 0 then 0 else delay, act)
      ensures delay > 0 && MayFollow(old(View()), delay, act) ==> Extends(old(View()), View())
    {
      hide Inv, ActOk, Count, Extends;
      var d := if delay < 0 then 0 else delay;
      ScheduledKeeps(lengths, View(), d, act);
      seqNo := seqNo + 1;
      queue := queue + [Event(now + d, seqNo, act)];
    }

    // ---------- small updates ----------

    method SetPick(i: int, pick: PickerState.State)
      requires Sound() && 0 <= i < |nodes| && NodeOk(lengths, nodes[i].(pick := pick))
      modifies this
      ensures Sound() && Extends(old(View()), View())
      ensures View() == old(View()).(nodes := old(nodes)[i := old(nodes)[i].(pick := pick)])
    {
      hide Inv, NodeOk, Extends;
      NodeReplaced(lengths, View(), i, nodes[i].(pick := pick));
      nodes := nodes[i := nodes[i].(pick := pick)];
    }

    method SetEnd(c: int, side: int, e: End)
      requires Sound() && IsSide(conns, c, side) && |conns[c].ends| == 2
      requires Count(queue, Transfer(c, side)) <= e.outstanding <= PIPELINE_CAP
      requires e.view.Some? ==> e.view.value <= HaveOf(nodes, conns[c].nodes[1 - side])
      requires ViewGrows(conns[c].ends[side].view, e.view)
      modifies this
      ensures Sound() && Extends(old(View()), View())
      ensures View() == old(View()).(conns := old(conns)[c := old(conns)[c].(ends := old(conns)[c].ends[side := e])])
    {
      hide Inv, Count, Extends;
      EndReplaced(lengths, View(), c, side, e);
      conns := conns[c := conns[c].(ends := conns[c].ends[side := e])];
    }

    // ---------- requests ----------

    /** wantsFrom, once there is a view to ask about. */
    predicate WantsFrom(i: int, view: set<int>)
      requires 0 <= i < |nodes| && PickerState.Valid(nodes[i].pick)
      reads this
    {
      !PickerState.Finished(nodes[i].pick) && view - nodes[i].have != {}
    }

    /** fillConnection: as many new requests as the pipeline has room for. */
    method FillConnection(c: int, side: int)
      requires Sound() && 0 <= c < |conns| && 0 <= side < 2
      modifies this
      ensures Sound() && Settled(old(View()), View()) && FillDone(old(View()), View(), c, side, cfg.latency)
    {
      hide Inv, NodeOk, Count, Settled, PickerState.Picked, PickerState.Valid, HasAll, Sending;
      ConnFacts(lengths, View(), c);
      var self := conns[c].nodes[side];
      Same(View());
      PickIsValid(lengths, nodes[self]);
      if !nodes[self].online {
        return;
      }
      var e := conns[c].ends[side];
      if e.view.None? {
        if PickerState.Finished(nodes[self].pick) {
          UpdateEnd(c, side, e.(interested := false));
        } else {
          Crash();
        }
        return;
      }
      var interested := WantsFrom(self, e.view.value);
      UpdateEnd(c, side, e.(interested := interested));
      if !interested || conns[c].ends[1 - side].choking {
        return;
      }
      var room := PIPELINE_CAP - e.outstanding;
      if room <= 0 {
        return;
      }
      ghost var w0, w1 := old(View()), View();
      ghost var pick, reqs := SendRequests(c, side, self, e.view.value, room);
      SettledTransitive(w0, w1, View());
      assert Requested(w1, View(), c, side, self, e.view.value, room, pick, reqs, cfg.latency);
    }

    /** One side's part of a connection replaced, and nothing else. */
    method UpdateEnd(c: int, side: int, e: End)
      requires Sound() && 0 <= c < |conns| && 0 <= side < 2 && ConnOk(nodes, conns[c])
      requires Count(queue, Transfer(c, side)) <= e.outstanding <= PIPELINE_CAP
      requires e.view.Some? ==> e.view.value <= nodes[conns[c].nodes[1 - side]].have
      requires ViewGrows(conns[c].ends[side].view, e.view)
      modifies this
      ensures Sound() && Settled(old(View()), View()) && View() == WithEnd(old(View()), c, side, e)
    {
      hide Inv, Count;
      SetEnd(c, side, e);
    }

    method Crash()
      requires Sound()
      modifies this
      ensures Sound() && Settled(old(View()), View()) && View() == old(View()).(crashed := true)
    {
      hide Count;
      crashed := true;
    }

    /** The tail of fillConnection: picking, then one request at a time. */
    method SendRequests(c: int, side: int, self: int, view: set<int>, room: int)
      returns (ghost pick: PickerState.State, ghost reqs: seq<Request>)
      requires Sound() && 0 <= c < |conns| && 0 <= side < 2 && ConnOk(nodes, conns[c]) && conns[c].nodes[side] == self
      requires room == PIPELINE_CAP - conns[c].ends[side].outstanding && room > 0
      requires conns[c].ends[side].view == Some(view)
      modifies this
      ensures Sound() && Settled(old(View()), View())
      ensures Requested(old(View()), View(), c, side, self, view, room, pick, reqs, cfg.latency)
    {
      hide Inv, NodeOk, Count, Settled, Extends, PickerState.Picked, PickerState.Valid, HasAll, Sending;
      ConnFacts(lengths, View(), c);
      PickIsValid(lengths, nodes[self]);
      ghost var w0 := View();
      var newPick, requests := Picker.PickFrom(nodes[self].pick, view, room, now);
      PickedKeepsNode(lengths, nodes[self], view, room, now, newPick, requests);
      SetPick(self, newPick);
      PickSettles(w0, View(), self, newPick);
      ghost var w1 := View();
      SendingStarts(w1, c, side, requests, cfg.latency);
      for k := 0 to |requests|
        invariant Sound() && Settled(w0, View()) && Sending(w1, View(), c, side, requests, k, cfg.latency)
        invariant 0 <= c < |conns| && |conns[c].ends| == 2 && conns[c].ends[side].outstanding == PIPELINE_CAP - room + k
      {
        assert requests[k] in requests;
        StillHas(w0, View(), c, side, requests[k].index);
        ghost var w := View();
        SendRequest(c, side, requests[k]);
        SettledTransitive(w0, w, View());
        SendingStep(w1, w, View(), c, side, requests, k, cfg.latency);
      }
      pick, reqs := newPick, requests;
    }

    /** sendRequest: lost altogether, or on its way. */
    method SendRequest(c: int, side: int, req: Request)
      requires Sound() && IsSide(conns, c, side) && |conns[c].ends| == 2 && conns[c].ends[side].outstanding < PIPELINE_CAP
      requires req.index in HaveOf(nodes, conns[c].nodes[1 - side]) && Seen(conns, c, side)
      modifies this
      ensures Sound() && Settled(old(View()), View())
      ensures View() == Counted(old(View()), c, side) || View() == Scheduled(Counted(old(View()), c, side), cfg.latency, Serve(c, side, req))
    {
      hide Inv, Count, Settled, ActOk, WithEnd, Counted, SideOk;
      ghost var w0 := View();
      CountedHasRoom(lengths, w0, c, side, req);
      var e := conns[c].ends[side];
      UpdateEnd(c, side, e.(outstanding := e.outstanding + 1));
      if * {
        return;
      }
      ghost var w1 := View();
      Schedule(cfg.latency, Serve(c, side, req));
      SettledTransitive(w0, w1, View());
    }

    /** Clock.After for something strictly later. */
    method Schedule(delay: int, act: Action)
      requires Sound() && delay > 0 && ActOk(nodes, conns, act) && MayFollow(View(), delay, act) && !Stirs(act)
      requires act.Serve? || act.Deliver? ==> Count(queue, Transfer(act.conn, act.side)) < OutstandingOf(conns, act.conn, act.side)
      modifies this
      ensures Sound() && Settled(old(View()), View()) && View() == Scheduled(old(View()), delay, act)
    {
      hide Inv, ActOk, Count;
      After(delay, act);
    }

    /** serveRequest: choke state is read when the request arrives. */
    method ServeRequest(c: int, side: int, req: Request)
      requires Sound() && ActOk(nodes, conns, Serve(c, side, req)) && Seen(conns, c, side) && Count(queue, Transfer(c, side)) < OutstandingOf(conns, c, side)
      modifies this
      ensures Sound() && Settled(old(View()), View())
      ensures Served(cfg, old(View()), View(), c, side, req)
    {
      hide Inv, Count, Settled, ActOk, ConnOk, SideOk;
      ServeFacts(nodes, conns, c, side, req);
      ConnFacts(lengths, View(), c);
      ConnNodes(nodes, conns[c], side);
      Same(View());
      var providerSide := 1 - side;
      var provider, requester := conns[c].nodes[providerSide], conns[c].nodes[side];
      if !nodes[provider].online || conns[c].ends[providerSide].choking {
        return;
      }
      var rate := EffectiveRate(nodes[provider].upRate, nodes[requester].downRate);
      var transfer := TransferTime(req.length, rate);
      Schedule(cfg.latency + transfer, Deliver(c, side, req));
    }

    /** deliverBlock. */
    method DeliverBlock(c: int, side: int, req: Request) returns (ghost arrived: World, ghost ids: seq<int>)
      requires Sound() && ActOk(nodes, conns, Deliver(c, side, req)) && Count(queue, Transfer(c, side)) < OutstandingOf(conns, c, side)
      modifies this
      ensures Sound() && Steady(old(View()), View()) && DeliveryDone(old(View()), arrived, View(), c, side, req, ids, cfg.latency)
      ensures Seen(old(conns), c, side) ==> crashed == old(crashed)
    {
      hide Inv, Count, Settled, Steady, Extends, NodeOk, PickerState.Valid, HasAll, TakenIn, FillDone;
      ConnFacts(lengths, View(), c);
      ghost var w0 := View();
      var requester, provider := conns[c].nodes[side], conns[c].nodes[1 - side];
      CountDelivery(c, side, req);
      ghost var w1 := View();
      SettledMeans(w0, w1);
      arrived, ids := w1, [];
      if !nodes[requester].online {
        return;
      }
      MoveBytes(provider, requester, req);
      ghost var w2 := View();
      SteadyTransitive(w0, w1, w2);
      ids := BlockArrives(requester, provider, req);
      arrived := View();
      SteadyTransitive(w0, w2, arrived);
      SteadyKeeps(w0, arrived, c, side);
      FillConnection(c, side);
      FillEffect(lengths, arrived, View(), c, side, cfg.latency);
      SettledMeans(arrived, View());
      SteadyTransitive(w0, arrived, View());
    }

    /** The request is answered, even when nobody is there to receive it. */
    method CountDelivery(c: int, side: int, req: Request)
      requires Sound() && 0 <= c < |conns| && 0 <= side < 2 && ConnOk(nodes, conns[c]) && Count(queue, Transfer(c, side)) < OutstandingOf(conns, c, side)
      modifies this
      ensures Sound() && Settled(old(View()), View()) && IsAnswered(old(View()), View(), c, side, req.length)
    {
      hide Inv, Count, Settled;
      ghost var w0 := View();
      var e := conns[c].ends[side];
      UpdateEnd(c, side, e.(outstanding := e.outstanding - 1));
      if !nodes[conns[c].nodes[side]].online {
        return;
      }
      ghost var w1 := View();
      UpdateEnd(c, side, e.(outstanding := e.outstanding - 1, received := e.received + req.length));
      SettledTransitive(w0, w1, View());
      EndTwice(w0, c, side, e.(outstanding := e.outstanding - 1), e.(outstanding := e.outstanding - 1, received := e.received + req.length));
    }

    method MoveBytes(provider: int, requester: int, req: Request)
      requires Sound() && 0 <= provider < |nodes| && 0 <= requester < |nodes| && provider != requester
      modifies this
      ensures Sound() && Steady(old(View()), View()) && View() == Moved(old(View()), provider, requester, req.length)
    {
      hide Inv, Count, Extends;
      ghost var w0 := View();
      MovedKeeps(lengths, View(), provider, requester, req.length);
      nodes := nodes[requester := nodes[requester].(bytesDown := nodes[requester].bytesDown + req.length)]
                    [provider := nodes[provider].(bytesUp := nodes[provider].bytesUp + req.length)];
      assert View() == Moved(w0, provider, requester, req.length);
    }

    /** The middle of deliverBlock: the requester's picker, and what follows when a piece is done. */
    method BlockArrives(i: int, provider: int, req: Request) returns (ghost ids: seq<int>)
      requires Sound() && 0 <= i < |nodes| && 0 <= provider < |nodes| && req.index in nodes[provider].have
      modifies this
      ensures Sound() && Steady(old(View()), View()) && TakenIn(old(View()), View(), i, ids, req) && crashed == old(crashed)
    {
      hide Inv, Count, Settled, Steady, NodeOk, PickerState.Received, PickerState.Valid, HasAll, AreLinks, Verified, HavesSent;
      ghost var w0 := View();
      ids := SortedConnIds(i);
      PeersAreLinks(lengths, w0, i, ids);
      NodeFacts(lengths, View(), i);
      var n := nodes[i];
      var received := PickerState.Received(n.pick, req.index, req.begin, req.length);
      ReceivedKeepsNode(lengths, n, req.index, req.begin, req.length);
      SetPick(i, received.0);
      PickSettles(w0, View(), i, received.0);
      SettledMeans(w0, View());
      if received.2 && received.1 {
        ghost var w1 := View();
        GainPiece(i, provider, req.index);
        SteadyTransitive(w0, w1, View());
        ghost var w2 := View();
        VerifiedKeepsLinks(w1, i, req.index);
        ids := BroadcastHave(i, req.index);
        SettledMeans(w2, View());
        SteadyTransitive(w0, w2, View());
        SameIds(w0, w2, i, ids);
      }
    }

    /** A piece is done: the bitfield, the picker, and the node's completion. */
    method GainPiece(i: int, provider: int, index: int)
      requires Sound() && 0 <= i < |nodes| && 0 <= provider < |nodes| && index in nodes[provider].have && 0 <= index < |lengths|
      requires !HasAll(lengths, nodes[i].have)
      modifies this
      ensures Sound() && Steady(old(View()), View()) && View() == Verified(old(View()), i, index)
      ensures i < |nodes| && index in nodes[i].have && crashed == old(crashed)
    {
      hide Inv, Count, Extends, PickerState.Valid, HasAll, PickerState.NoNewWork;
      ghost var w0 := View();
      NodeFacts(lengths, View(), i);
      var n := nodes[i];
      PickerState.MarkVerifiedKeeps(n.pick, index);
      var pick := PickerState.MarkVerified(n.pick, index);
      FinishedHasNothingActive(pick);
      FinishedHasNothingActive(n.pick);
      var completedAt := n.completedAt;
      var finished := n.completedAt.None? && PickerState.Finished(pick);
      if finished {
        completedAt := Some(now);
      }
      PieceGained(lengths, View(), i, provider, index, pick, completedAt);
      nodes := nodes[i := n.(have := n.have + {index}, pick := pick, completedAt := completedAt)];
      if finished {
        pending := pending - 1;
      }
      assert View() == w0.(nodes := w0.nodes[i := w0.nodes[i].(have := pick.have, pick := pick, completedAt := completedAt)],
                           pending := w0.pending - if completedAt.Some? then 1 else 0);
    }

    /** The peers of a node in a fixed order. */
    method SortedConnIds(i: int) returns (ids: seq<int>)
      requires Sound() && 0 <= i < |nodes|
      ensures PeersOf(nodes[i], ids)
    {
      hide Inv;
      ids := [];
      for p := 0 to |nodes|
        invariant forall q :: q in ids <==> q in nodes[i].conns && 0 <= q < p
        invariant forall k, l :: 0 <= k < l < |ids| ==> ids[k] < ids[l]
      {
        if p in nodes[i].conns {
          OrderedAppend(ids, p);
          ids := ids + [p];
        }
      }
      forall p | p in nodes[i].conns ensures p in ids {
        LinkFacts(lengths, View(), i, p);
      }
    }

    /** broadcastHave. */
    method BroadcastHave(i: int, index: int) returns (ghost ids: seq<int>)
      requires Sound() && 0 <= i < |nodes| && index in nodes[i].have
      modifies this
      ensures Sound() && Settled(old(View()), View()) && crashed == old(crashed)
      ensures PeersOf(old(nodes)[i], ids) && AreLinks(old(View()), i, ids) && View() == HavesSent(old(View()), i, ids, index)
    {
      hide Inv, Count, Settled, AreLinks, HavesSent;
      ghost var w0 := View();
      Same(w0);
      var peers := SortedConnIds(i);
      ids := peers;
      PeersAreLinks(lengths, w0, i, ids);
      NoHaves(w0, i, index);
      assert ids[..0] == [];
      for k := 0 to |peers|
        invariant Sound() && Settled(w0, View()) && nodes == w0.nodes && conns == w0.conns && crashed == w0.crashed
        invariant AreLinks(w0, i, ids[..k]) && View() == HavesSent(w0, i, ids[..k], index)
      {
        OneMoreHave(w0, i, ids, index, k);
        assert peers[k] in peers;
        var c := nodes[i].conns[peers[k]];
        LinkFacts(lengths, View(), i, peers[k]);
        var ownerSide := IndexOf(conns[c], i);
        ghost var w := View();
        Schedule(cfg.latency, HaveArrives(c, 1 - ownerSide, index));
        SettledTransitive(w0, w, View());
      }
      assert ids[..|ids|] == ids;
    }

    /** The far side of broadcastHave, one latency later: the view and the availability count grow, and requests follow. */
    method HaveLands(c: int, side: int, index: int)
      requires Sound() && ActOk(nodes, conns, HaveArrives(c, side, index))
      modifies this
      ensures Sound() && Settled(old(View()), View()) && HaveDone(old(View()), View(), c, side, index, cfg.latency)
      ensures Seen(old(conns), c, side) ==> crashed == old(crashed)
    {
      hide Inv, Count, Settled, NodeOk, FillDone, ActOk;
      ghost var w0 := View();
      Same(w0);
      HaveIsHeld(nodes, conns, c, side, index);
      ConnFacts(lengths, View(), c);
      var self := conns[c].nodes[side];
      if !nodes[self].online {
        return;
      }
      var e := conns[c].ends[side];
      if e.view.None? {
        Crash();
        return;
      }
      UpdateEnd(c, side, e.(view := Some(e.view.value + {index})));
      ghost var w1 := View();
      AddToCounts(self, {index});
      SettledTransitive(w0, w1, View());
      ghost var w2 := View();
      SettledKeepsSeen(w1, w2, c, side);
      FillConnection(c, side);
      FillEffect(lengths, w2, View(), c, side, cfg.latency);
      SettledTransitive(w0, w2, View());
    }

    method AddToCounts(i: int, have: set<int>)
      requires Sound() && 0 <= i < |nodes|
      modifies this
      ensures Sound() && Settled(old(View()), View()) && View() == WithMore(old(View()), i, have)
    {
      hide Inv, Count, NodeOk;
      NodeFacts(lengths, View(), i);
      var n := nodes[i];
      var avail := AvailabilityIndex.Added(n.pick.avail, have);
      AvailChanges(lengths, n, avail);
      SetPick(i, n.pick.(avail := avail));
    }

    /** The handshake lands: each side takes a snapshot of the other's pieces, and then both may ask. */
    method HandshakeLands(c: int) returns (ghost w1: World, ghost w2: World, ghost w3: World)
      requires Sound() && 0 <= c < |conns|
      modifies this
      ensures Sound() && Settled(old(View()), View()) && crashed == old(crashed)
      ensures HandshakeDone(old(View()), w1, w2, w3, View(), c, cfg.latency)
      ensures SeesAll(View(), c, 0) && SeesAll(View(), c, 1)
    {
      hide Inv, Count, Settled, Shook, FillDone;
      ghost var w0 := View();
      ShakeSide(c, 0);
      w1 := View();
      SettledKeepsConns(w0, w1, c);
      ShakeSide(c, 1);
      SettledTransitive(w0, w1, View());
      w2 := View();
      SettledKeepsConns(w0, w2, c);
      ViewStays(w1, w2, c, 0);
      FillConnection(c, 0);
      FillEffect(lengths, w2, View(), c, 0, cfg.latency);
      w3 := View();
      SettledKeepsConns(w2, w3, c);
      SettledKeepsSeen(w2, w3, c, 1);
      FillConnection(c, 1);
      FillEffect(lengths, w3, View(), c, 1, cfg.latency);
      SettledTransitive(w2, w3, View());
      SettledTransitive(w0, w2, View());
      SettledTransitive(w1, w2, View());
      SettledKeepsConns(w2, View(), c);
      ConnFacts(lengths, View(), c);
      ViewStays(w1, View(), c, 0);
      ViewStays(w2, View(), c, 1);
    }

    method ShakeSide(c: int, m: int)
      requires Sound() && 0 <= c < |conns| && 0 <= m < 2
      modifies this
      ensures Sound() && Settled(old(View()), View()) && crashed == old(crashed) && Shook(old(View()), View(), c, m)
      ensures SeesAll(View(), c, m)
    {
      hide Inv, Count, Settled, NodeOk, PickerState.Valid;
      ghost var w0 := View();
      ConnFacts(lengths, View(), c);
      var self, other := conns[c].nodes[m], conns[c].nodes[1 - m];
      var e := conns[c].ends[m];
      var view := nodes[other].have;
      UpdateEnd(c, m, e.(view := Some(view)));
      ghost var w1 := View();
      AddToCounts(self, view);
      SettledTransitive(w0, w1, View());
      ghost var w2 := View();
      ConnFacts(lengths, View(), c);
      PickIsValid(lengths, nodes[self]);
      e := conns[c].ends[m];
      var interested := WantsFrom(self, view);
      UpdateEnd(c, m, e.(interested := interested));
      SettledTransitive(w0, w2, View());
      SettledKeepsLinks(w0, View(), other);
      SettledKeepsConns(w0, View(), c);
      ConnFacts(lengths, View(), c);
    }

    // ---------- coming and going ----------

    /** connect: nothing is known to either side until the handshake lands. */
    method Connect(a: int, b: int)
      requires Sound() && 0 <= a < |nodes| && 0 <= b < |nodes| && a != b && nodes[a].online && nodes[b].online
      modifies this
      ensures Sound() && Extends(old(View()), View())
      ensures View() == Scheduled(Linked(old(View()), a, b), cfg.latency, Handshake(|old(conns)|))
    {
      hide Inv, Count, Extends;
      ghost var w0 := View();
      LinkedKeeps(lengths, View(), a, b);
      var c := |conns|;
      conns := conns + [Conn([a, b], [NO_END, NO_END])];
      nodes := nodes[a := nodes[a].(conns := nodes[a].conns[b := c])][b := nodes[b].(conns := nodes[b].conns[a := c])];
      assert View() == Linked(w0, a, b);
      ghost var w1 := View();
      After(cfg.latency, Handshake(c));
      ExtendsTransitive(w0, w1, View());
    }

    /** disconnect, seen from node i: both ends notice at once, and each takes its own view out of its counts. */
    method Disconnect(i: int, p: int)
      requires Sound() && 0 <= i < |nodes| && p in nodes[i].conns
      modifies this
      ensures Sound() && Extends(old(View()), View())
      ensures Dropped(old(View()), View(), i, p)
    {
      hide Inv, Count, Extends, ForgetView, IndexOf;
      ghost var w0 := View();
      DropKeeps(lengths, w0, i, p);
      var k := conns[nodes[i].conns[p]];
      var m := IndexOf(k, i);
      var pickI := ForgetView(nodes[i].pick, k.ends[m].view);
      var pickP := ForgetView(nodes[p].pick, k.ends[1 - m].view);
      nodes := nodes[i := nodes[i].(conns := nodes[i].conns - {p}, pick := pickI)]
                    [p := nodes[p].(conns := nodes[p].conns - {i}, pick := pickP)];
      assert View() == Unlinked(w0, i, p, pickI, pickP);
    }

    /** takeOffline: every link comes down in turn, and a churned node is to return after a random time. */
    method TakeOffline(n: int, churnEligible: bool) returns (ghost ids: seq<int>, ghost ws: seq<World>)
      requires Sound() && 0 <= n < |nodes|
      modifies this
      ensures Sound() && Extends(old(View()), View()) && crashed == old(crashed) && |conns| == |old(conns)|
      ensures if old(nodes)[n].online then WentOffline(old(View()), View(), n, churnEligible, cfg, ids, ws) else View() == old(View())
    {
      hide Inv, Count, Extends, Dropped, PeersOf;
      ghost var w0 := View();
      ids, ws := [], [w0];
      ExtendsItself(w0);
      if !nodes[n].online {
        return;
      }
      var peers := SortedConnIds(n);
      ids := peers;
      AllPeers(w0.nodes[n], ids);
      assert ids[0..] == ids;
      for k := 0 to |peers|
        invariant Sound() && Extends(w0, View()) && |nodes| == |w0.nodes| && crashed == w0.crashed && conns == w0.conns
        invariant DroppedTo(w0, View(), n, ids, ws, k) && nodes[n].online && nodes[n].joinedAt == w0.nodes[n].joinedAt
        invariant forall p :: p in nodes[n].conns <==> p in ids[k..]
      {
        assert ids[k..] == [ids[k]] + ids[k + 1..];
        Unrepeated(w0.nodes[n], ids, k);
        ghost var w := View();
        Disconnect(n, peers[k]);
        DroppedLeaves(w, View(), n, ids[k]);
        ExtendsTransitive(w0, w, View());
        OneMoreDropped(w0, w, View(), n, ids, ws, k);
        ws := ws + [View()];
      }
      if nodes[n].conns.Keys != {} {
        ghost var p := SomeMember(nodes[n].conns.Keys);
      }
      assert nodes[n].conns == map[];
      ghost var w1 := View();
      OnlineChanged(lengths, View(), n, false, nodes[n].joinedAt);
      nodes := nodes[n := nodes[n].(online := false)];
      assert View() == w1.(nodes := w1.nodes[n := w1.nodes[n].(online := false, joinedAt := w1.nodes[n].joinedAt)]);
      ExtendsTransitive(w0, w1, View());
      if churnEligible {
        ghost var w2 := View();
        var offline := cfg.offlineMin;
        if cfg.offlineMax > cfg.offlineMin {
          offline :| cfg.offlineMin <= offline < cfg.offlineMax;
        }
        After(offline, Join(n, true));
        ExtendsTransitive(w0, w2, View());
        assert ReturnsLater(w2, View(), n, cfg);
      }
    }

    /** bringOnline: links to a random choice of the nodes that are online, and the periodic loops. */
    method BringOnline(n: int, churnEligible: bool) returns (ghost chosen: seq<int>)
      requires Sound() && 0 <= n < |nodes|
      modifies this
      ensures Sound() && Extends(old(View()), View())
      ensures Choice(old(nodes), n, chosen, cfg.maxPeers) && View() == Joined(old(View()), n, chosen, churnEligible, cfg)
    {
      hide Inv, Count, Extends, LinkedAll, ActOk;
      ghost var w0 := View();
      OnlineChanged(lengths, View(), n, true, now);
      nodes := nodes[n := nodes[n].(online := true, joinedAt := now)];
      assert View() == Online(w0, n);
      ghost var w1 := View();
      chosen := ConnectToSome(n);
      OthersStay(w0.nodes, w1.nodes, n, |w0.nodes|);
      LoopsOk(nodes, conns, n, cfg.churnInterval);
      ExtendsTransitive(w0, w1, View());
      ghost var w2 := View();
      After(cfg.tickInterval, Tick(n));
      ExtendsTransitive(w0, w2, View());
      ghost var w3 := View();
      LoopsOk(nodes, conns, n, cfg.churnInterval);
      After(cfg.chokeInterval, ChokeTick(n));
      ExtendsTransitive(w0, w3, View());
      if Churns(churnEligible, cfg) {
        ghost var w4 := View();
        LoopsOk(nodes, conns, n, cfg.churnInterval);
        After(cfg.churnInterval, ChurnCheck(n, cfg.churnInterval));
        ExtendsTransitive(w0, w4, View());
      }
    }

    /** The shuffled candidates, up to the limit, are linked one by one. */
    method ConnectToSome(n: int) returns (ghost chosen: seq<int>)
      requires Sound() && 0 <= n < |nodes| && nodes[n].online
      modifies this
      ensures Sound() && Extends(old(View()), View())
      ensures Choice(old(nodes), n, chosen, cfg.maxPeers) && View() == LinkedAll(old(View()), n, chosen)
    {
      hide Inv, Count, Extends, LinkedAll, Linked, Scheduled;
      ghost var w0 := View();
      ExtendsItself(w0);
      var candidates := OnlineOthers(n);
      chosen := [];
      NobodyLinked(w0, n);
      var max := Min(cfg.maxPeers, |candidates|);
      for k := 0 to if max < 0 then 0 else max
        invariant Sound() && Extends(w0, View()) && |candidates| >= max - k && |chosen| == k
        invariant Candidates(w0.nodes, n, chosen, candidates) && View() == LinkedAll(w0, n, chosen)
      {
        var j :| 0 <= j < |candidates|;
        ghost var w := View();
        LinkedAllKeeps(w0, n, chosen);
        Connect(n, candidates[j]);
        ExtendsTransitive(w0, w, View());
        OneMoreLinked(w0, n, chosen, candidates, j);
        chosen := chosen + [candidates[j]];
        candidates := candidates[..j] + candidates[j + 1..];
      }
    }

    /** The other nodes that are online. */
    method OnlineOthers(n: int) returns (candidates: seq<int>)
      ensures Candidates(nodes, n, [], candidates) && |candidates| == OthersOnline(nodes, n, |nodes|)
    {
      candidates := [];
      for i := 0 to |nodes|
        invariant |candidates| == OthersOnline(nodes, n, i)
        invariant forall k :: 0 <= k < |candidates| ==> 0 <= candidates[k] < i && candidates[k] != n && nodes[candidates[k]].online
        invariant forall k, l :: 0 <= k < l < |candidates| ==> candidates[k] < candidates[l]
      {
        if i != n && nodes[i].online {
          candidates := candidates + [i];
        }
      }
    }

    // ---------- periodic loops ----------

    /** The picking loop of scheduleTick: overdue requests are given up, each link is filled in turn, and the next tick planned. */
    method PickTick(n: int) returns (ghost ids: seq<int>, ghost ws: seq<World>)
      requires Sound() && 0 <= n < |nodes|
      modifies this
      ensures Sound() && Settled(old(View()), View())
      ensures if old(nodes)[n].online then Ticked(old(View()), View(), n, ids, ws, cfg) else View() == old(View())
      ensures |conns| == |old(conns)| && (crashed <==> old(crashed) || TooEarly(lengths, old(View()), n))
    {
      hide Inv, Count, Settled, NodeOk, Extends, FilledFor, FilledTo, Ticked, TooEarly, SomeBlind, ViewsSame, HasAll, PickerState.Releases, Picker.Overdue, PickerState.Valid, PeersOf;
      ghost var w0 := View();
      ids, ws := [], [];
      Same(w0);
      SettledMeans(w0, w0);
      if !nodes[n].online {
        OfflineIsLate(lengths, w0, n);
        return;
      }
      NodeFacts(lengths, View(), n);
      PickIsValid(lengths, nodes[n]);
      var pick := Picker.ExpireFrom(nodes[n].pick, now);
      ExpireKeepsNode(lengths, nodes[n], now, pick);
      SetPick(n, pick);
      PickSettles(w0, View(), n, pick);
      var peers := SortedConnIds(n);
      ghost var start := View();
      SamePeers(nodes[n], w0.nodes[n], peers);
      ws := [start];
      NothingFilled(start, n, peers, cfg.latency);
      NobodyBlind(w0, start, n, peers);
      ghost var lacking := !HasAll(lengths, w0.nodes[n].have);
      for k := 0 to |peers|
        invariant Sound() && Settled(w0, View()) && |nodes| == |w0.nodes| && nodes[n].conns == w0.nodes[n].conns
        invariant FilledTo(start, View(), n, peers, ws, k, cfg.latency)
        invariant ViewsSame(w0, View()) && (crashed <==> w0.crashed || (lacking && SomeBlind(w0, n, peers, k)))
      {
        ghost var w := View();
        IsPeer(nodes[n], w0.nodes[n], peers, k);
        FillFor(n, peers[k]);
        FillForEffect(lengths, w0, w, View(), n, peers, k, cfg.latency);
        SettledKeepsLinks(w, View(), n);
        SettledTransitive(w0, w, View());
        FilledOneMore(start, w, View(), n, peers, ws, k, cfg.latency);
        ws := ws + [View()];
      }
      ids := peers;
      ghost var w1 := View();
      Schedule(cfg.tickInterval, Tick(n));
      TickIs(w0, start, w1, n, pick, peers, ws, cfg);
      BlindMeans(lengths, w0, n, peers);
      SettledTransitive(w0, w1, View());
      SettledMeans(w0, View());
    }

    /** One turn of that loop. */
    method FillFor(n: int, p: int)
      requires Sound() && 0 <= n < |nodes| && p in nodes[n].conns
      modifies this
      ensures Sound() && Settled(old(View()), View()) && FilledFor(old(View()), View(), n, p, cfg.latency)
    {
      hide Inv, Count, Settled, FillDone;
      LinkFacts(lengths, View(), n, p);
      FillConnection(nodes[n].conns[p], IndexOf(conns[nodes[n].conns[p]], n));
    }

    /** The loop of scheduleChoke: the choker judges the links and tells them. */
    method RunChoker(n: int) returns (ghost ids: seq<int>, ghost verdict: seq<bool>, ghost order: seq<nat>, ghost memory: Choking.Memory)
      requires Sound() && 0 <= n < |nodes| && NamesOk(nodes)
      modifies this
      ensures Sound() && Settled(old(View()), View()) && crashed == old(crashed)
      ensures if old(nodes)[n].online then Rechoked(old(View()), View(), n, cfg.chokerSlots, cfg.chokeInterval, ids, verdict, order, memory)
              else View() == old(View())
    {
      hide Inv, Count, Settled, AreLinks, IsLink, LinkOf, Judged, InTurn, ToldAll, Named;
      ghost var w0 := View();
      ids, verdict, order, memory := [], [], [], nodes[n].choke;
      Same(w0);
      if !nodes[n].online {
        return;
      }
      var peers := SortedConnIds(n);
      PeersAreLinks(lengths, w0, n, peers);
      var links := Links(n, peers);
      LinksAreNamed(w0, n, peers);
      var unchoke, turns, remembered := Decide(links, nodes[n].choke, cfg.chokerSlots, ROTATION, now);
      JudgedAll(links, nodes[n].choke, cfg.chokerSlots, now, unchoke, turns, remembered);
      Remember(n, remembered);
      ghost var w1 := View();
      RememberingKeeps(w0, n, remembered, peers);
      NobodyTold(w1, n, peers, unchoke);
      for t := 0 to |turns|
        invariant Sound() && Settled(w0, View()) && View() == ToldAll(w1, n, peers, unchoke, turns[..t]) && crashed == w0.crashed
      {
        ghost var w := View();
        ToldAllMeans(w1, n, peers, unchoke, turns[..t]);
        LinkAt(w, n, peers, turns[t]);
        OneMoreTold(w1, n, peers, unchoke, turns, t);
        SetChoking(n, peers[turns[t]], !unchoke[turns[t]]);
        SettledTransitive(w0, w, View());
      }
      assert turns[..|turns|] == turns;
      ghost var w2 := View();
      SettledMeans(w0, w2);
      Schedule(cfg.chokeInterval, ChokeTick(n));
      SettledTransitive(w0, w2, View());
      ids, verdict, order, memory := peers, unchoke, turns, remembered;
    }

    /** The links of a node as its choker's peers. */
    method Links(n: int, ids: seq<int>) returns (links: seq<Link>)
      requires AreLinks(View(), n, ids)
      ensures links == LinksOf(View(), n, ids)
    {
      hide AreLinks, IsLink;
      links := [];
      for k := 0 to |ids|
        invariant |links| == k && forall j :: 0 <= j < k ==> links[j] == LinksOf(View(), n, ids)[j]
      {
        LinkAt(View(), n, ids, k);
        LinkBounds(View(), n, ids[k]);
        var conn := conns[nodes[n].conns[ids[k]]];
        var side := IndexOf(conn, n);
        links := links + [Link(nodes[ids[k]].id, conn.ends[1 - side].interested, conn.ends[side].received, conn.ends[side].choking)];
      }
    }

    method Remember(n: int, memory: Choking.Memory)
      requires Sound() && 0 <= n < |nodes|
      modifies this
      ensures Sound() && Settled(old(View()), View()) && View() == Remembering(old(View()), n, memory)
    {
      hide Inv, Count, NodeOk;
      NodeFacts(lengths, View(), n);
      var self := nodes[n].(choke := memory);
      CountingKeepsNode(lengths, nodes[n], self);
      NodeReplaced(lengths, View(), n, self);
      NodeSettles(View(), n, self);
      nodes := nodes[n := self];
    }

    /** connEnd.Choke and connEnd.Unchoke, with onChokeChanged. */
    method SetChoking(n: int, p: int, choke: bool)
      requires Sound() && IsLink(View(), n, p)
      modifies this
      ensures Sound() && Settled(old(View()), View()) && View() == Told(old(View()), n, p, choke)
    {
      hide Inv, Count, Settled, NodeOk;
      ghost var w0 := View();
      Same(w0);
      var c := nodes[n].conns[p];
      var side := IndexOf(conns[c], n);
      ConnFacts(lengths, View(), c);
      var e := conns[c].ends[side];
      if e.choking == choke {
        return;
      }
      UpdateEnd(c, side, e.(choking := choke));
      ghost var w1 := View();
      CountChange(n, choke);
      SettledTransitive(w0, w1, View());
      if !choke {
        ghost var w2 := View();
        Schedule(cfg.latency, Unchoked(c, 1 - side));
        SettledTransitive(w0, w2, View());
      }
    }

    method CountChange(n: int, choke: bool)
      requires Sound() && 0 <= n < |nodes|
      modifies this
      ensures Sound() && Settled(old(View()), View()) && View() == old(View()).(nodes := old(nodes)[n := WithChange(old(nodes)[n], choke)])
    {
      hide Inv, Count, NodeOk;
      NodeFacts(lengths, View(), n);
      var counted := WithChange(nodes[n], choke);
      CountingKeepsNode(lengths, nodes[n], counted);
      NodeReplaced(lengths, View(), n, counted);
      NodeSettles(View(), n, counted);
      nodes := nodes[n := counted];
    }

    /** The loop of scheduleChurnCheck. */
    method CheckChurn(n: int, interval: int)
      requires Sound() && 0 <= n < |nodes| && interval > 0
      modifies this
      ensures Sound() && Extends(old(View()), View())
      ensures Checked(old(View()), View(), n, interval, cfg)
      ensures crashed == old(crashed) && |conns| == |old(conns)|
    {
      hide Inv, Count, Extends;
      ExtendsItself(View());
      if !nodes[n].online {
        return;
      }
      if * {
        ghost var ids, ws := TakeOffline(n, true);
        return;
      }
      After(interval, ChurnCheck(n, interval));
    }

    // ---------- the run ----------

    /** Running one scheduled action. */
    method Fire(act: Action)
      requires Sound() && ActOk(nodes, conns, act)
      requires act.Serve? || act.Deliver? ==> Count(queue, Transfer(act.conn, act.side)) < OutstandingOf(conns, act.conn, act.side)
      requires NamesOk(nodes) && TimelyBut(View(), Landing(act)) && (NeedsView(act) ==> Seen(conns, act.conn, act.side))
      modifies this
      ensures Sound() && Extends(old(View()), View()) && Timely(View()) && Fired(cfg, old(View()), View(), act)
      ensures act.Join? || act.ChurnCheck? || Quiet(old(View()), View())
      ensures crashed <==> old(crashed) || (act.Tick? && TooEarly(lengths, old(View()), act.node))
    {
      hide Inv, Count, Extends, TimelyBut, Seen, Settled, FillDone, Served, DeliveryDone, HandshakeDone, HaveDone, Ticked, SeesAll, ActOk, TooEarly, Joined, Choice, Quiet;
      ghost var w0 := View();
      ActMeans(nodes, conns, act);
      match act {
        case Join(n, churn) =>
          ghost var chosen := BringOnline(n, churn);
          JoinedGreets(w0, n, chosen, churn, cfg);
          TimelyJoined(lengths, w0, View(), Churns(churn, cfg));
          return;
        case Handshake(c) =>
          ghost var w1, w2, w3 := HandshakeLands(c);
          SeesAllMeans(View(), c);
          SettledMeans(w0, View());
        case Serve(c, side, req) =>
          ServeRequest(c, side, req);
          ServedQuietly(cfg, w0, View(), c, side, req);
          SettledMeans(w0, View());
        case Deliver(c, side, req) =>
          ghost var arrived, ids := DeliverBlock(c, side, req);
          SteadyMeans(w0, View());
        case HaveArrives(c, side, index) =>
          HaveLands(c, side, index);
          SettledMeans(w0, View());
        case Unchoked(c, side) =>
          FillConnection(c, side);
          FillEffect(lengths, w0, View(), c, side, cfg.latency);
          SeenIsSome(w0.conns, c, side);
          SettledMeans(w0, View());
        case Tick(n) =>
          ghost var _, _ := PickTick(n);
          SettledMeans(w0, View());
        case ChokeTick(n) =>
          ghost var _, _, _, _ := RunChoker(n);
          SettledMeans(w0, View());
        case ChurnCheck(n, interval) => CheckChurn(n, interval);
      }
      TimelyStays(w0, View(), Landing(act));
    }

    /** The index of the event that the heap pops. */
    method Earliest() returns (k: int)
      requires |queue| > 0 && InSequence(queue, seqNo)
      ensures IsEarliest(queue, k)
    {
      k := 0;
      for i := 1 to |queue|
        invariant 0 <= k < i
        invariant forall j :: 0 <= j < i && j != k ==> Later(queue[j], queue[k])
      {
        if queue[i].at < queue[k].at || (queue[i].at == queue[k].at && queue[i].seqNo < queue[k].seqNo) {
          k := i;
        }
      }
    }

    /** Clock.step. */
    method Step() returns (ran: bool)
      requires Valid()
      modifies this
      ensures Valid() && ran == (old(queue) != []) && (!ran ==> View() == old(View()))
      ensures ran ==> Stepped(cfg, lengths, old(View()), View())
      ensures |nodes| == |old(nodes)| && forall i :: 0 <= i < |nodes| ==> old(nodes)[i].have <= nodes[i].have
      ensures ran ==> now > old(now) || (now == old(now) && Count(queue, Due(now)) < Count(old(queue), Due(now)))
    {
      hide Inv, Count, TimelyBut, TooEarly, Fired, Extends, InSequence;
      if |queue| == 0 {
        return false;
      }
      ghost var w0 := View();
      TimelyMeans(w0);
      var k := Earliest();
      var e := queue[k];
      EarliestPopped(lengths, w0, k);
      queue := queue[..k] + queue[k + 1..];
      now := e.at;
      assert View() == Popped(w0, k);
      Fire(e.act);
      PoppedThen(Popped(w0, k), View());
      ran := true;
    }

    /** Run. Every run ends: each step moves the clock, or uses up one of the events due now. */
    method Run() returns (r: Outcome, ghost ws: seq<World>)
      requires Valid()
      modifies this
      ensures Valid() && r.elapsed == now && r.nodes == nodes
      ensures IsRun(cfg, lengths, ws) && ws[0] == old(View()) && ws[|ws| - 1] == View()
      ensures crashed <==> old(crashed) || exists i :: 0 <= i < |ws| - 1 && NextIsTooEarly(lengths, ws[i])
      ensures Calm(old(View())) && !cfg.churn ==> crashed == old(crashed)
      ensures r.completed <==> pending == 0
      ensures r.completed <==> forall i :: 0 <= i < |nodes| ==> HasAll(lengths, nodes[i].have)
      ensures TotalUp(nodes) == TotalDown(nodes)
      ensures (forall i :: 0 <= i < |nodes| ==> !nodes[i].seed) ==> forall i :: 0 <= i < |nodes| ==> nodes[i].have == {}
      ensures !crashed ==> now >= cfg.maxDuration || queue == [] || (cfg.stopWhenComplete && r.completed)
    {
      hide Inv, Count, HasAll, TimelyBut, Stepped, NextIsTooEarly, Calm;
      ws := [View()];
      while now < cfg.maxDuration && !crashed
        invariant Valid() && IsRun(cfg, lengths, ws) && ws[0] == old(View()) && ws[|ws| - 1] == View()
        invariant crashed <==> old(crashed) || exists i :: 0 <= i < |ws| - 1 && NextIsTooEarly(lengths, ws[i])
        invariant Calm(old(View())) && !cfg.churn ==> Calm(View()) && crashed == old(crashed)
        decreases cfg.maxDuration - now, Count(queue, Due(now))
      {
        if cfg.stopWhenComplete && pending <= 0 {
          break;
        }
        ghost var w := View();
        var ran := Step();
        if !ran {
          break;
        }
        StepCrashes(cfg, lengths, w, View());
        if Calm(w) {
          CalmIsNeverEarly(lengths, w);
          CalmStep(cfg, lengths, w, View());
        }
        OneMoreStep(cfg, lengths, ws, View());
        ws := ws + [View()];
      }
      InvMeans(lengths, View());
      var completed := AllDone();
      r := Outcome(now, completed, nodes);
    }

    /** The loop of result. */
    method AllDone() returns (allDone: bool)
      ensures allDone <==> forall i :: 0 <= i < |nodes| && !nodes[i].seed ==> nodes[i].completedAt.Some?
    {
      allDone := true;
      for i := 0 to |nodes|
        invariant allDone <==> forall j :: 0 <= j < i && !nodes[j].seed ==> nodes[j].completedAt.Some?
      {
        if !nodes[i].seed && nodes[i].completedAt.None? {
          allDone := false;
        }
      }
    }

    /** AddNode: an empty or a used name and a negative join time are refused; the new node's number is its position. */
    method AddNode(name: string, seed: bool, upRate: int, downRate: int, strategy: PickerState.Strategy, joinAt: int, churnEligible: bool)
      returns (added: Option<int>)
      requires Valid()
      modifies this
      ensures Valid() && now == old(now) && conns == old(conns)
      ensures added.None? <==> name == "" || (exists i :: 0 <= i < |old(nodes)| && old(nodes)[i].id == name) || joinAt < 0
      ensures added.None? ==> View() == old(View())
      ensures added.Some? ==>
                var id := |old(nodes)|;
                && added.value == id && |nodes| == id + 1 && nodes[..id] == old(nodes)
                && nodes[id].id == name && nodes[id].seed == seed && !nodes[id].online
                && (if seed then HasAll(lengths, nodes[id].have) else nodes[id].have == {})
                && seqNo == old(seqNo) + 1 && queue == old(queue) + [Event(now + joinAt, seqNo, Join(id, churnEligible && !seed))]
                && nodes[id].conns == map[] && crashed == old(crashed)
                && nodes[id].upRate == upRate && nodes[id].downRate == downRate && nodes[id].pick.strategy == strategy && nodes[id].completedAt.None?
                && (Calm(old(View())) && now + joinAt == 0 ==> Calm(View()))
    {
      hide Inv, Count, NodeOk, HasAll, FreshNode, Extends, TimelyBut;
      ghost var w0 := View();
      if name == "" {
        return None;
      }
      for i := 0 to |nodes|
        invariant forall j :: 0 <= j < i ==> nodes[j].id != name
      {
        if nodes[i].id == name {
          return None;
        }
      }
      if joinAt < 0 {
        return None;
      }
      var id := |nodes|;
      LengthsPositive(lengths, View());
      var n := FreshNode(lengths, name, seed, upRate, downRate, strategy);
      FreshNodeOk(lengths, name, seed, upRate, downRate, strategy);
      NodeAdded(lengths, View(), n);
      nodes := nodes + [n];
      if !seed {
        pending := pending + 1;
      }
      After(joinAt, Join(id, churnEligible && !seed));
      TimelyScheduled(w0, w0.nodes + [n], pending, joinAt, Join(id, churnEligible && !seed));
      added := Some(id);
    }
  }

  /** A node as AddNode makes it. */
  function FreshNode(lengths: seq<nat>, name: string, seed: bool, upRate: int, downRate: int, strategy: PickerState.Strategy): (n: Node) {
    var have := if seed then Picker.UpTo(|lengths|) else {};
    var cfg := Picker.Settings(lengths, 0, 0, 0, 0);
    var pick := PickerState.State(cfg, have, map[], None, strategy, seq(|lengths|, i => 0));
    Node(name, seed, pick, have, upRate, downRate, false, map[], 0, None, 0, 0, 0, 0, Choking.FRESH)
  }

  lemma {:induction false} FreshNodeOk(lengths: seq<nat>, name: string, seed: bool, upRate: int, downRate: int, strategy: PickerState.Strategy)
    requires |lengths| > 0
    ensures var n := FreshNode(lengths, name, seed, upRate, downRate, strategy);
            && NodeOk(lengths, n) && n.conns == map[] && n.bytesUp == n.bytesDown == 0 && !n.online && n.seed == seed && n.id == name && n.upRate == upRate && n.downRate == downRate && n.pick.strategy == strategy
            && (if seed then HasAll(lengths, n.have) else n.have == {}) && (!seed ==> n.completedAt.None?)
  {
    Picker.UpToMeans(|lengths|);
    if !seed {
      assert 0 !in {};
    }
  }

  /** NewSwarm: a torrent or a piece without bytes is refused. */
  method NewSwarm(cfg: SimConfig) returns (s: Option<Swarm>)
    ensures s.None? <==> cfg.totalLength <= 0 || cfg.pieceLength <= 0
    ensures s.Some? ==> s.value.Valid() && s.value.nodes == [] && s.value.now == 0 && !s.value.crashed && s.value.cfg == WithDefaults(cfg)
                        && (s.value.cfg.latency < s.value.cfg.tickInterval ==> Calm(s.value.View()))
                        && |s.value.lengths| == NumPieces(cfg) && forall i :: 0 <= i < |s.value.lengths| ==> s.value.lengths[i] == PieceLen(cfg, i)
  {
    if cfg.totalLength <= 0 || cfg.pieceLength <= 0 {
      return None;
    }
    var swarm := new Swarm(cfg);
    s := Some(swarm);
  }

  function PieceLenNat(c: SimConfig, i: int): (n: nat)
    requires c.totalLength > 0 && c.pieceLength > 0 && 0 <= i < NumPieces(c)
  {
    PieceLensTile(c, i);
    PieceLen(c, i)
  }

  lemma {:induction false} ServeFacts(nodes: seq<Node>, conns: seq<Conn>, c: int, side: int, req: Request)
    requires ActOk(nodes, conns, Serve(c, side, req))
    ensures IsSide(conns, c, side) && ActOk(nodes, conns, Deliver(c, side, req))
  {
  }

  lemma {:induction false} ConnNodes(nodes: seq<Node>, k: Conn, side: int)
    requires ConnOk(nodes, k) && 0 <= side < 2
    ensures |k.nodes| == 2 && |k.ends| == 2 && 0 <= k.nodes[side] < |nodes| && 0 <= k.nodes[1 - side] < |nodes|
  {
  }

  /** The whole effect of serveRequest: nothing when the provider is away or choking, else the block is on its way. */
  ghost predicate Served(cfg: SimConfig, w: World, w': World, c: int, side: int, req: Request) {
    0 <= c < |w.conns| && 0 <= side < 2 && ConnOk(w.nodes, w.conns[c]) &&
    var provider, requester := w.nodes[w.conns[c].nodes[1 - side]], w.nodes[w.conns[c].nodes[side]];
    w' == if !provider.online || w.conns[c].ends[1 - side].choking then w
          else Scheduled(w, cfg.latency + TransferTime(req.length, EffectiveRate(provider.upRate, requester.downRate)), Deliver(c, side, req))
  }

  /** One more request outstanding on a side. */
  function Counted(w: World, c: int, side: int): (w': World)
    requires 0 <= c < |w.conns| && 0 <= side < |w.conns[c].ends|
  {
    WithEnd(w, c, side, w.conns[c].ends[side].(outstanding := w.conns[c].ends[side].outstanding + 1))
  }

  lemma {:induction false} CountedHasRoom(lengths: seq<nat>, w: World, c: int, side: int, req: Request)
    requires Inv(lengths, w) && IsSide(w.conns, c, side) && |w.conns[c].ends| == 2 && req.index in HaveOf(w.nodes, w.conns[c].nodes[1 - side])
    requires Seen(w.conns, c, side) && w.latency > 0
    ensures MayFollow(Counted(w, c, side), w.latency, Serve(c, side, req))
    ensures ActOk(Counted(w, c, side).nodes, Counted(w, c, side).conns, Serve(c, side, req))
    ensures Count(Counted(w, c, side).queue, Transfer(c, side)) < OutstandingOf(Counted(w, c, side).conns, c, side)
    ensures ConnOk(w.nodes, w.conns[c]) && Counted(w, c, side) == WithEnd(w, c, side, w.conns[c].ends[side].(outstanding := w.conns[c].ends[side].outstanding + 1))
    ensures SideOk(lengths, w, c, side) && Count(w.queue, Transfer(c, side)) <= w.conns[c].ends[side].outstanding
    ensures ViewGrows(w.conns[c].ends[side].view, Some(HaveOf(w.nodes, w.conns[c].nodes[1 - side])))
  {
    hide Inv, Count, ActOk;
    CountedServes(w, c, side, req);
    ConnFacts(lengths, w, c);
    assert SideOk(lengths, w, c, side);
  }

  lemma {:induction false} CountedServes(w: World, c: int, side: int, req: Request)
    requires IsSide(w.conns, c, side) && |w.conns[c].ends| == 2 && req.index in HaveOf(w.nodes, w.conns[c].nodes[1 - side]) && Seen(w.conns, c, side)
    ensures MayFollow(Counted(w, c, side), if w.latency < 0 then 0 else w.latency, Serve(c, side, req)) && Counted(w, c, side).latency == w.latency
    ensures Counted(w, c, side).nodes == w.nodes && IsSide(Counted(w, c, side).conns, c, side)
    ensures Counted(w, c, side).conns[c].nodes == w.conns[c].nodes
    ensures ActOk(Counted(w, c, side).nodes, Counted(w, c, side).conns, Serve(c, side, req))
  {
  }

  /** The world after the first k requests: each counted, and each on its way unless it was lost. */
  ghost predicate Sending(w0: World, w: World, c: int, side: int, reqs: seq<Request>, k: int, latency: int) {
    0 <= c < |w0.conns| && 0 <= side < |w0.conns[c].ends| &&
    var e := w0.conns[c].ends[side];
    && w == w0.(conns := w0.conns[c := w0.conns[c].(ends := w0.conns[c].ends[side := e.(outstanding := e.outstanding + k)])],
                queue := w.queue, seqNo := w.seqNo)
    && w0.queue <= w.queue && |w.queue| - |w0.queue| <= k
    && forall j :: |w0.queue| <= j < |w.queue| ==> IsServeOf(w.queue[j], c, side, reqs, w0.now + latency)
  }

  predicate IsServeOf(e: Event, c: int, side: int, reqs: seq<Request>, at: int) {
    e.at == at && e.act.Serve? && e.act.conn == c && e.act.side == side && e.act.req in reqs
  }

  lemma {:induction false} SendingStarts(w: World, c: int, side: int, reqs: seq<Request>, latency: int)
    requires 0 <= c < |w.conns| && 0 <= side < |w.conns[c].ends|
    ensures Sending(w, w, c, side, reqs, 0, latency)
  {
    var k := w.conns[c];
    assert k.ends[side := k.ends[side].(outstanding := k.ends[side].outstanding + 0)] == k.ends;
    assert w.conns[c := k] == w.conns;
  }

  lemma {:induction false} SendingStep(w0: World, w: World, w': World, c: int, side: int, reqs: seq<Request>, k: nat, latency: int)
    requires Sending(w0, w, c, side, reqs, k, latency) && k < |reqs| && 0 <= c < |w.conns| && 0 <= side < |w.conns[c].ends|
    requires w' == Counted(w, c, side) || w' == Scheduled(Counted(w, c, side), latency, Serve(c, side, reqs[k]))
    ensures Sending(w0, w', c, side, reqs, k + 1, latency)
  {
    var e := w0.conns[c].ends[side];
    var more := e.(outstanding := e.outstanding + k + 1);
    assert w'.conns[c].ends[side] == more;
    assert w'.conns[c].ends == w0.conns[c].ends[side := more];
    assert w'.conns == w0.conns[c := w0.conns[c].(ends := w0.conns[c].ends[side := e.(outstanding := e.outstanding + k + 1)])];
    assert reqs[k] in reqs;
  }

  /** A picker asked for as many blocks as there is room for, and exactly those requests sent. */
  ghost predicate Requested(w: World, w': World, c: int, side: int, self: int, view: set<int>, room: int,
                            pick: PickerState.State, reqs: seq<Request>, latency: int)
  {
    && 0 <= self < |w.nodes|
    && PickerState.Picked(w.nodes[self].pick, view, room, w.now, pick, reqs)
    && Sending(w.(nodes := w.nodes[self := w.nodes[self].(pick := pick)]), w', c, side, reqs, |reqs|, latency)
  }

  /** The whole effect of disconnect: the link is gone at both ends, and each end's view of the other from its counts. */
  ghost predicate Dropped(w: World, w': World, i: int, p: int) {
    0 <= i < |w.nodes| && 0 <= p < |w.nodes| && p != i && p in w.nodes[i].conns && 0 <= w.nodes[i].conns[p] < |w.conns| &&
    var k := w.conns[w.nodes[i].conns[p]];
    var m := IndexOf(k, i);
    0 <= m < 2 && |k.ends| == 2 &&
    w' == Unlinked(w, i, p, ForgetView(w.nodes[i].pick, k.ends[m].view), ForgetView(w.nodes[p].pick, k.ends[1 - m].view))
  }

  lemma {:induction false} DropKeeps(lengths: seq<nat>, w: World, i: int, p: int)
    requires Inv(lengths, w) && 0 <= i < |w.nodes| && p in w.nodes[i].conns
    ensures 0 <= p < |w.nodes| && p != i && 0 <= w.nodes[i].conns[p] < |w.conns|
    ensures var k := w.conns[w.nodes[i].conns[p]];
            var m := IndexOf(k, i);
            && 0 <= m < 2 && |k.ends| == 2
            && var w' := Unlinked(w, i, p, ForgetView(w.nodes[i].pick, k.ends[m].view), ForgetView(w.nodes[p].pick, k.ends[1 - m].view));
            Inv(lengths, w') && Extends(w, w')
  {
    hide Inv, Count, Extends, NodeOk;
    LinkFacts(lengths, w, i, p);
    NodeFacts(lengths, w, i);
    NodeFacts(lengths, w, p);
    var k := w.conns[w.nodes[i].conns[p]];
    var m := IndexOf(k, i);
    ForgetKeeps(lengths, w.nodes[i], k.ends[m].view);
    ForgetKeeps(lengths, w.nodes[p], k.ends[1 - m].view);
    hide ForgetView, ConnOk;
    UnlinkedKeeps(lengths, w, i, p, ForgetView(w.nodes[i].pick, k.ends[m].view), ForgetView(w.nodes[p].pick, k.ends[1 - m].view));
  }

  /** The whole effect of fillConnection. */
  ghost predicate FillDone(w: World, w': World, c: int, side: int, latency: int) {
    0 <= c < |w.conns| && 0 <= side < 2 && ConnOk(w.nodes, w.conns[c]) && PickerState.Valid(w.nodes[w.conns[c].nodes[side]].pick) &&
    var self, e := w.conns[c].nodes[side], w.conns[c].ends[side];
    var n := w.nodes[self];
    if !n.online then w' == w
    else if e.view.None? then w' == if PickerState.Finished(n.pick) then WithEnd(w, c, side, e.(interested := false)) else w.(crashed := true)
    else
      var wants := !PickerState.Finished(n.pick) && e.view.value - n.have != {};
      var w1 := WithEnd(w, c, side, e.(interested := wants));
      var view, room := e.view.value, PIPELINE_CAP - e.outstanding;
      if !wants || w.conns[c].ends[1 - side].choking || room <= 0 then w' == w1
      else exists pick, reqs :: Requested(w1, w', c, side, self, view, room, pick, reqs, latency)
  }

  /** How many requests a fill sends: as many as are counted, within the pipeline, and only to a peer that does not choke and has something to want. */
  lemma {:induction false} FillAsks(lengths: seq<nat>, w: World, w': World, c: int, side: int, latency: int) returns (n: nat)
    requires Inv(lengths, w) && FillDone(w, w', c, side, latency) && w.nodes[w.conns[c].nodes[side]].online && w.conns[c].ends[side].view.Some?
    ensures |w'.conns| == |w.conns| && |w'.conns[c].ends| == 2 && w'.conns[c].ends[1 - side] == w.conns[c].ends[1 - side]
    ensures var e, e' := w.conns[c].ends[side], w'.conns[c].ends[side];
            && e' == e.(outstanding := e.outstanding + n, interested := e.view.value - w.nodes[w.conns[c].nodes[side]].have != {})
            && e'.outstanding <= 12
            && (n > 0 ==> e'.interested && !w.conns[c].ends[1 - side].choking)
    ensures w.queue <= w'.queue && |w'.queue| <= |w.queue| + n
    ensures forall k :: |w.queue| <= k < |w'.queue| ==>
              && w'.queue[k].at == w.now + latency && w'.queue[k].act.Serve? && w'.queue[k].act.conn == c && w'.queue[k].act.side == side
  {
    hide Inv, PickerState.Finished, PickerState.Valid, HasAll, PickerState.Picked;
    var self, e := w.conns[c].nodes[side], w.conns[c].ends[side];
    NodeFacts(lengths, w, self);
    NodeFacts(lengths, w, w.conns[c].nodes[1 - side]);
    ConnFacts(lengths, w, c);
    WantsWhatItLacks(lengths, w, c, side);
    var wants := e.view.value - w.nodes[self].have != {};
    var w1 := WithEnd(w, c, side, e.(interested := wants));
    var room := PIPELINE_CAP - e.outstanding;
    if !wants || w.conns[c].ends[1 - side].choking || room <= 0 {
      n := 0;
    } else {
      var pick, reqs :| Requested(w1, w', c, side, self, e.view.value, room, pick, reqs, latency);
      PickedFits(w1.nodes[self].pick, e.view.value, room, w.now, pick, reqs);
      n := |reqs|;
    }
  }

  lemma {:induction false} PickedFits(s0: PickerState.State, view: set<int>, room: int, now: int, s: PickerState.State, reqs: seq<Request>)
    requires PickerState.Picked(s0, view, room, now, s, reqs) && room > 0
    ensures |reqs| <= room
  {
    PickerState.PickAsksForMissingBlocks(s0, view, room, now, s, reqs);
  }

  lemma {:induction false} WantsWhatItLacks(lengths: seq<nat>, w: World, c: int, side: int)
    requires Inv(lengths, w) && 0 <= c < |w.conns| && 0 <= side < 2 && ConnOk(w.nodes, w.conns[c]) && w.conns[c].ends[side].view.Some?
    ensures var n, view := w.nodes[w.conns[c].nodes[side]], w.conns[c].ends[side].view.value;
            PickerState.Valid(n.pick) && (!PickerState.Finished(n.pick) && view - n.have != {} <==> view - n.have != {})
  {
    hide Inv, PickerState.Finished, PickerState.Valid, HasAll;
    var n, far := w.nodes[w.conns[c].nodes[side]], w.nodes[w.conns[c].nodes[1 - side]];
    NodeFacts(lengths, w, w.conns[c].nodes[side]);
    NodeFacts(lengths, w, w.conns[c].nodes[1 - side]);
    FinishedHasNothingActive(n.pick);
    ConnFacts(lengths, w, c);
    if PickerState.Finished(n.pick) {
      NothingToWant(lengths, far, n);
    }
  }

  /** The whole effect of deliverBlock: the answer is counted, and if it is received, taken, and requests follow. */
  ghost predicate DeliveryDone(w: World, arrived: World, w': World, c: int, side: int, req: Request, ids: seq<int>, latency: int) {
    && HasArrived(w, arrived, c, side, req, ids)
    && if w.nodes[w.conns[c].nodes[side]].online then FillDone(arrived, w', c, side, latency) else w' == arrived
  }

  /** The whole effect of a handshake that lands, by way of the worlds between its steps. */
  ghost predicate HandshakeDone(w: World, w1: World, w2: World, w3: World, w': World, c: int, latency: int) {
    Shook(w, w1, c, 0) && Shook(w1, w2, c, 1) && FillDone(w2, w3, c, 0, latency) && FillDone(w3, w', c, 1, latency)
  }

  lemma {:induction false} VerifiedKeepsLinks(w: World, i: int, index: int)
    requires 0 <= i < |w.nodes|
    ensures var w' := Verified(w, i, index); |w'.nodes| == |w.nodes| && w'.nodes[i].conns == w.nodes[i].conns && w'.conns == w.conns
    ensures forall ids :: AreLinks(w, i, ids) ==> AreLinks(Verified(w, i, index), i, ids)
  {
  }

  lemma {:induction false} SameIds(w: World, w': World, i: int, ids: seq<int>)
    requires 0 <= i < |w.nodes| && |w'.nodes| == |w.nodes| && w'.nodes[i].conns == w.nodes[i].conns && w'.conns == w.conns
    requires AreLinks(w', i, ids)
    ensures AreLinks(w, i, ids)
  {
    forall k | 0 <= k < |ids| ensures IsLink(w, i, ids[k]) {
      assert IsLink(w', i, ids[k]);
    }
  }

  lemma {:induction false} SteadyKeeps(w: World, w': World, c: int, side: int)
    requires Steady(w, w') && 0 <= c < |w.conns|
    ensures c < |w'.conns| && |w'.nodes| == |w.nodes| && (Seen(w.conns, c, side) ==> Seen(w'.conns, c, side))
  {
    hide Extends;
    if Seen(w.conns, c, side) {
      SeenStays(w, w', c, side);
    }
    assert |w'.nodes| == |w.nodes| by { CountsStay(w, w'); }
  }

  lemma {:induction false} SteadyMeans(w: World, w': World)
    requires Steady(w, w')
    ensures Extends(w, w') && Quiet(w, w') && |w'.conns| == |w.conns|
  {
  }

  lemma {:induction false} CountsStay(w: World, w': World)
    requires Extends(w, w')
    ensures |w'.nodes| == |w.nodes|
  {
  }

  ghost predicate ViewsSame(w: World, w': World) {
    |w'.conns| == |w.conns| && forall c, side :: 0 <= c < |w.conns| && 0 <= side < 2 ==> ViewOf(w'.conns, c, side) == ViewOf(w.conns, c, side)
  }

  /** fillConnection changes no view, and crashes exactly when a node that lacks a piece has no view to ask about. */
  lemma {:induction false} FillEffect(lengths: seq<nat>, w: World, w': World, c: int, side: int, latency: int)
    requires Inv(lengths, w) && FillDone(w, w', c, side, latency)
    ensures ViewsSame(w, w') && 0 <= w.conns[c].nodes[side] < |w.nodes|
    ensures var n := w.nodes[w.conns[c].nodes[side]];
            w'.crashed <==> w.crashed || (n.online && !HasAll(lengths, n.have) && ViewOf(w.conns, c, side).None?)
  {
    hide Inv, PickerState.Picked, PickerState.Finished, PickerState.Valid, HasAll;
    var self := w.conns[c].nodes[side];
    NodeFacts(lengths, w, self);
    FinishedHasNothingActive(w.nodes[self].pick);
  }

  /** The link to p is there, but nothing is known of p yet: the handshake is still on its way. */
  ghost predicate Blind(w: World, n: int, p: int) {
    && 0 <= n < |w.nodes| && p in w.nodes[n].conns && 0 <= w.nodes[n].conns[p] < |w.conns|
    && ViewOf(w.conns, w.nodes[n].conns[p], IndexOf(w.conns[w.nodes[n].conns[p]], n)).None?
  }

  /** A tick of n comes too early: n is online, lacks a piece, and has a link whose handshake is still on its way. */
  ghost predicate TooEarly(lengths: seq<nat>, w: World, n: int) {
    0 <= n < |w.nodes| && w.nodes[n].online && !HasAll(lengths, w.nodes[n].have) && exists p :: Blind(w, n, p)
  }

  ghost predicate SomeBlind(w: World, n: int, ids: seq<int>, k: int) {
    exists j :: 0 <= j < k && j < |ids| && Blind(w, n, ids[j])
  }

  lemma {:induction false} OfflineIsLate(lengths: seq<nat>, w: World, n: int)
    requires 0 <= n < |w.nodes| && !w.nodes[n].online
    ensures !TooEarly(lengths, w, n)
  {
  }

  lemma {:induction false} NobodyBlind(w: World, w': World, n: int, ids: seq<int>)
    requires w'.conns == w.conns
    ensures !SomeBlind(w, n, ids, 0) && ViewsSame(w, w')
  {
  }

  lemma {:induction false} BlindMeans(lengths: seq<nat>, w: World, n: int, ids: seq<int>)
    requires 0 <= n < |w.nodes| && PeersOf(w.nodes[n], ids) && w.nodes[n].online
    ensures TooEarly(lengths, w, n) <==> !HasAll(lengths, w.nodes[n].have) && SomeBlind(w, n, ids, |ids|)
  {
    hide IndexOf, ViewOf, HasAll;
    if SomeBlind(w, n, ids, |ids|) {
      var j :| 0 <= j < |ids| && Blind(w, n, ids[j]);
    }
    if p :| Blind(w, n, p) {
      assert p in ids;
      var j :| 0 <= j < |ids| && ids[j] == p;
      assert Blind(w, n, ids[j]);
    }
  }

  /** One turn of the loop over the peers. */
  lemma {:induction false} FillForEffect(lengths: seq<nat>, w0: World, w: World, w': World, n: int, ids: seq<int>, k: nat, latency: int)
    requires Inv(lengths, w) && Settled(w0, w) && ViewsSame(w0, w) && k < |ids| && FilledFor(w, w', n, ids[k], latency)
    requires 0 <= n < |w0.nodes| && w0.nodes[n].online
    ensures ViewsSame(w0, w')
    ensures var lacking := !HasAll(lengths, w0.nodes[n].have);
            (w.crashed <==> w0.crashed || (lacking && SomeBlind(w0, n, ids, k))) ==>
            (w'.crashed <==> w0.crashed || (lacking && SomeBlind(w0, n, ids, k + 1)))
  {
    hide Inv, Extends, HasAll, FillDone, Blind;
    var c := w.nodes[n].conns[ids[k]];
    assert SameHoldings(w0.nodes[n], w.nodes[n]);
    LinkFacts(lengths, w, n, ids[k]);
    FillEffect(lengths, w, w', c, IndexOf(w.conns[c], n), latency);
    BlindIs(w0, w, n, ids[k]);
    OneMoreBlind(w0, n, ids, k);
  }

  lemma {:induction false} BlindIs(w0: World, w: World, n: int, p: int)
    requires Settled(w0, w) && ViewsSame(w0, w) && 0 <= n < |w0.nodes| && p in w.nodes[n].conns
    requires 0 <= w.nodes[n].conns[p] < |w.conns| && 0 <= IndexOf(w.conns[w.nodes[n].conns[p]], n) < 2
    ensures Blind(w0, n, p) <==> ViewOf(w.conns, w.nodes[n].conns[p], IndexOf(w.conns[w.nodes[n].conns[p]], n)).None?
  {
    hide Count, Appended, ViewOf;
    assert SameHoldings(w0.nodes[n], w.nodes[n]);
  }

  lemma {:induction false} OneMoreBlind(w: World, n: int, ids: seq<int>, k: nat)
    requires k < |ids|
    ensures SomeBlind(w, n, ids, k + 1) <==> SomeBlind(w, n, ids, k) || Blind(w, n, ids[k])
  {
    hide Blind;
    if SomeBlind(w, n, ids, k + 1) {
      var j :| 0 <= j < k + 1 && j < |ids| && Blind(w, n, ids[j]);
      assert j < k || j == k;
    }
    if Blind(w, n, ids[k]) {
      assert k < k + 1;
    }
  }

  /** The whole effect of a Have that arrives. */
  ghost predicate HaveDone(w: World, w': World, c: int, side: int, index: int, latency: int) {
    0 <= c < |w.conns| && 0 <= side < 2 && ConnOk(w.nodes, w.conns[c]) &&
    var self, e := w.conns[c].nodes[side], w.conns[c].ends[side];
    if !w.nodes[self].online then w' == w
    else if e.view.None? then w' == w.(crashed := true)
    else FillDone(WithMore(WithEnd(w, c, side, e.(view := Some(e.view.value + {index}))), self, {index}), w', c, side, latency)
  }

  lemma {:induction false} HaveIsHeld(nodes: seq<Node>, conns: seq<Conn>, c: int, side: int, index: int)
    requires ActOk(nodes, conns, HaveArrives(c, side, index))
    ensures IsSide(conns, c, side) && index in HaveOf(nodes, conns[c].nodes[1 - side])
  {
  }

  /** The connection to a peer has been filled. */
  ghost predicate FilledFor(w: World, w': World, n: int, p: int, latency: int) {
    && 0 <= n < |w.nodes| && p in w.nodes[n].conns && 0 <= w.nodes[n].conns[p] < |w.conns|
    && FillDone(w, w', w.nodes[n].conns[p], IndexOf(w.conns[w.nodes[n].conns[p]], n), latency)
  }

  /** The peers of a node, each once, in a fixed order. */
  ghost predicate PeersOf(n: Node, ids: seq<int>) {
    && (forall p :: p in ids <==> p in n.conns)
    && (forall k, l :: 0 <= k < l < |ids| ==> ids[k] < ids[l])
  }

  /** The worlds so far, from the start to the one in which the first k peers have been filled. */
  ghost predicate FilledTo(start: World, w: World, n: int, ids: seq<int>, ws: seq<World>, k: nat, latency: int) {
    && k <= |ids| && |ws| == k + 1 && ws[0] == start && ws[k] == w
    && (forall j :: 0 <= j < k ==> FilledFor(ws[j], ws[j + 1], n, ids[j], latency))
  }

  lemma {:induction false} NothingFilled(start: World, n: int, ids: seq<int>, latency: int)
    ensures FilledTo(start, start, n, ids, [start], 0, latency)
  {
  }

  lemma {:induction false} FilledOneMore(start: World, w: World, w': World, n: int, ids: seq<int>, ws: seq<World>, k: nat, latency: int)
    requires FilledTo(start, w, n, ids, ws, k, latency) && k < |ids| && FilledFor(w, w', n, ids[k], latency)
    ensures FilledTo(start, w', n, ids, ws + [w'], k + 1, latency)
  {
    hide FilledFor;
    var ws' := ws + [w'];
    forall j | 0 <= j < k + 1 ensures FilledFor(ws'[j], ws'[j + 1], n, ids[j], latency) {
      assert j < k ==> FilledFor(ws[j], ws[j + 1], n, ids[j], latency);
    }
  }

  lemma {:induction false} SamePeers(n: Node, n0: Node, ids: seq<int>)
    requires PeersOf(n, ids) && n.conns == n0.conns
    ensures PeersOf(n0, ids)
  {
  }

  lemma {:induction false} IsPeer(n: Node, n0: Node, ids: seq<int>, k: nat)
    requires PeersOf(n0, ids) && n.conns == n0.conns && k < |ids|
    ensures ids[k] in n.conns
  {
    assert ids[k] in ids;
  }

  lemma {:induction false} TickIs(w: World, start: World, w1: World, n: int, pick: PickerState.State, ids: seq<int>, ws: seq<World>, cfg: SimConfig)
    requires 0 <= n < |w.nodes| && PeersOf(w.nodes[n], ids) && PickerState.Valid(w.nodes[n].pick)
    requires PickerState.Releases(w.nodes[n].pick, pick, Picker.Overdue(w.nodes[n].pick, w.now))
    requires start == w.(nodes := w.nodes[n := w.nodes[n].(pick := pick)]) && FilledTo(start, w1, n, ids, ws, |ids|, cfg.latency)
    ensures Ticked(w, Scheduled(w1, cfg.tickInterval, Tick(n)), n, ids, ws, cfg)
  {
    hide FilledFor, PickerState.Releases, PeersOf, PickerState.Valid;
  }

  /** The whole effect of a tick, by way of the worlds between its steps. */
  ghost predicate Ticked(w: World, w': World, n: int, ids: seq<int>, ws: seq<World>, cfg: SimConfig) {
    && 0 <= n < |w.nodes| && PeersOf(w.nodes[n], ids) && |ws| == |ids| + 1 && PickerState.Valid(w.nodes[n].pick)
    && (exists pick :: PickerState.Releases(w.nodes[n].pick, pick, Picker.Overdue(w.nodes[n].pick, w.now))
                       && ws[0] == w.(nodes := w.nodes[n := w.nodes[n].(pick := pick)]))
    && (forall k :: 0 <= k < |ids| ==> FilledFor(ws[k], ws[k + 1], n, ids[k], cfg.latency))
    && w' == Scheduled(ws[|ids|], cfg.tickInterval, Tick(n))
  }

  lemma {:induction false} Same(w: World)
    ensures Settled(w, w)
  {
  }

  lemma {:induction false} PickIsValid(lengths: seq<nat>, n: Node)
    requires NodeOk(lengths, n)
    ensures PickerState.Valid(n.pick)
  {
  }

  lemma {:induction false} PickSettles(w: World, w': World, i: int, pick: PickerState.State)
    requires 0 <= i < |w.nodes| && w' == w.(nodes := w.nodes[i := w.nodes[i].(pick := pick)])
    ensures Settled(w, w')
  {
  }

  /** A piece in a side's view stays held by the far side. */
  lemma {:induction false} StillHas(w0: World, w: World, c: int, side: int, index: int)
    requires Settled(w0, w) && 0 <= c < |w0.conns| && 0 <= side < 2 && ConnOk(w0.nodes, w0.conns[c])
    requires w0.conns[c].ends[side].view.Some? && index in w0.conns[c].ends[side].view.value
    ensures IsSide(w.conns, c, side) && index in HaveOf(w.nodes, w.conns[c].nodes[1 - side]) && Seen(w.conns, c, side)
  {
    hide Count, Appended;
    SeenStays(w0, w, c, side);
    var p := w0.conns[c].nodes[1 - side];
    assert w0.nodes[p].have <= w.nodes[p].have;
  }

  lemma {:induction false} LoopsOk(nodes: seq<Node>, conns: seq<Conn>, n: int, interval: int)
    requires 0 <= n < |nodes|
    ensures ActOk(nodes, conns, Tick(n)) && ActOk(nodes, conns, ChokeTick(n)) && (interval > 0 ==> ActOk(nodes, conns, ChurnCheck(n, interval)))
  {
  }

  /** The connection whose handshake is landing. */
  function Landing(act: Action): (c: int) {
    if act.Handshake? then act.conn else -1
  }

  /** What each event does to the swarm. */
  ghost predicate Fired(cfg: SimConfig, w: World, w': World, act: Action) {
    match act
    case Join(n, churn) => 0 <= n < |w.nodes| && exists chosen :: Choice(w.nodes, n, chosen, cfg.maxPeers) && w' == Joined(w, n, chosen, churn, cfg)
    case Handshake(c) => exists w1, w2, w3 :: HandshakeDone(w, w1, w2, w3, w', c, cfg.latency)
    case Serve(c, side, req) => Served(cfg, w, w', c, side, req)
    case Deliver(c, side, req) => exists arrived, ids :: DeliveryDone(w, arrived, w', c, side, req, ids, cfg.latency)
    case HaveArrives(c, side, index) => HaveDone(w, w', c, side, index, cfg.latency)
    case Unchoked(c, side) => FillDone(w, w', c, side, cfg.latency)
    case Tick(n) => 0 <= n < |w.nodes| && if w.nodes[n].online then exists ids, ws :: Ticked(w, w', n, ids, ws, cfg) else w' == w
    case ChokeTick(n) => 0 <= n < |w.nodes| && if w.nodes[n].online
                           then exists ids, verdict, order, memory :: Rechoked(w, w', n, cfg.chokerSlots, cfg.chokeInterval, ids, verdict, order, memory)
                           else w' == w
    case ChurnCheck(n, interval) => 0 <= n < |w.nodes| && Checked(w, w', n, interval, cfg)
  }

  /** The earliest event has been run; nothing crashes but a tick that comes too early. */
  ghost predicate Stepped(cfg: SimConfig, lengths: seq<nat>, w: World, w': World) {
    exists k :: IsEarliest(w.queue, k) && Fired(cfg, Popped(w, k), w', w.queue[k].act) && Extends(Popped(w, k), w')
                && (w.queue[k].act.Join? || w.queue[k].act.ChurnCheck? || Quiet(Popped(w, k), w'))
                && (w'.crashed <==> w.crashed || (w.queue[k].act.Tick? && TooEarly(lengths, Popped(w, k), w.queue[k].act.node)))
  }

  /** The next event is a tick that comes too early. */
  ghost predicate NextIsTooEarly(lengths: seq<nat>, w: World) {
    exists k :: IsEarliest(w.queue, k) && w.queue[k].act.Tick? && TooEarly(lengths, Popped(w, k), w.queue[k].act.node)
  }

  lemma {:induction false} CalmIsNeverEarly(lengths: seq<nat>, w: World)
    requires Inv(lengths, w) && Timely(w) && Calm(w)
    ensures !NextIsTooEarly(lengths, w)
  {
    hide Inv, TimelyBut, HasAll, Calm;
    forall k | IsEarliest(w.queue, k) && w.queue[k].act.Tick? ensures !TooEarly(lengths, Popped(w, k), w.queue[k].act.node) {
      forall p ensures !Blind(Popped(w, k), w.queue[k].act.node, p) {
        NotBlind(lengths, w, k, w.queue[k].act.node, p);
      }
    }
  }

  lemma {:induction false} NotBlind(lengths: seq<nat>, w: World, k: int, n: int, p: int)
    requires Inv(lengths, w) && Timely(w) && Calm(w) && IsEarliest(w.queue, k) && w.queue[k].act.Tick?
    ensures !Blind(Popped(w, k), n, p)
  {
    hide Inv, TimelyBut, Calm;
    if 0 <= n < |w.nodes| && p in w.nodes[n].conns {
      LinkFacts(lengths, w, n, p);
      var c := w.nodes[n].conns[p];
      CalmSees(lengths, w, k, c, IndexOf(w.conns[c], n));
    }
  }

  /** Without churn a calm swarm stays calm. */
  lemma {:induction false} CalmStep(cfg: SimConfig, lengths: seq<nat>, w: World, w': World)
    requires Inv(lengths, w) && Calm(w) && Stepped(cfg, lengths, w, w')
    ensures !cfg.churn ==> Calm(w')
  {
    hide Inv, TooEarly, Fired, Extends, Quiet, Choice, Joined;
    var k :| IsEarliest(w.queue, k) && Fired(cfg, Popped(w, k), w', w.queue[k].act) && Extends(Popped(w, k), w')
             && (w.queue[k].act.Join? || w.queue[k].act.ChurnCheck? || Quiet(Popped(w, k), w'));
    var act := w.queue[k].act;
    NotPast(lengths, w, k);
    CalmPopped(w, k);
    assert IsCalm(w, w.queue[k]);
    if act.Join? {
      JoinFired(cfg, Popped(w, k), w', act);
    }
    if !cfg.churn {
      CalmStays(Popped(w, k), w');
    }
  }

  lemma {:induction false} NotPast(lengths: seq<nat>, w: World, k: int)
    requires Inv(lengths, w) && 0 <= k < |w.queue|
    ensures w.now <= w.queue[k].at
  {
  }

  lemma {:induction false} JoinFired(cfg: SimConfig, w: World, w': World, act: Action)
    requires Fired(cfg, w, w', act) && act.Join?
    ensures !cfg.churn ==> Greeted(w, w', false)
  {
    hide Choice, Joined, Greeted;
    var chosen :| Choice(w.nodes, act.node, chosen, cfg.maxPeers) && w' == Joined(w, act.node, chosen, act.churn, cfg);
    JoinedGreets(w, act.node, chosen, act.churn, cfg);
  }

  /** The worlds of a run, one event apart. */
  ghost predicate IsRun(cfg: SimConfig, lengths: seq<nat>, ws: seq<World>) {
    |ws| > 0 && forall i :: 0 <= i < |ws| - 1 ==> Stepped(cfg, lengths, ws[i], ws[i + 1])
  }

  lemma {:induction false} TimelyMeans(w: World)
    requires Timely(w)
    ensures InSequence(w.queue, w.seqNo)
  {
  }

  lemma {:induction false} EarliestPopped(lengths: seq<nat>, w: World, k: int)
    requires Inv(lengths, w) && Timely(w) && IsEarliest(w.queue, k)
    ensures var act, w' := w.queue[k].act, Popped(w, k);
            && Inv(lengths, w') && w.now <= w'.now && ActOk(w'.nodes, w'.conns, act)
            && TimelyBut(w', Landing(act)) && (NeedsView(act) ==> Seen(w'.conns, act.conn, act.side))
            && (w'.now == w.now ==> Count(w'.queue, Due(w.now)) < Count(w.queue, Due(w.now)))
            && (act.Serve? || act.Deliver? ==> Count(w'.queue, Transfer(act.conn, act.side)) < OutstandingOf(w'.conns, act.conn, act.side))
  {
    hide Inv, TimelyBut, Count, ActOk, Seen;
    assert forall j :: 0 <= j < |w.queue| ==> w.queue[k].at <= w.queue[j].at;
    PoppedKeeps(lengths, w, k);
    TimelyPopped(w, k);
    ActMeans(w.nodes, w.conns, w.queue[k].act);
  }

  lemma {:induction false} PoppedThen(w: World, w': World)
    requires Extends(w, w')
    ensures |w'.nodes| == |w.nodes| && forall i :: 0 <= i < |w.nodes| ==> w.nodes[i].have <= w'.nodes[i].have
    ensures NamesOk(w.nodes) ==> NamesOk(w'.nodes)
    ensures w'.now == w.now && Count(w'.queue, Due(w.now)) == Count(w.queue, Due(w.now))
  {
  }

  lemma {:induction false} StepCrashes(cfg: SimConfig, lengths: seq<nat>, w: World, w': World)
    requires Stepped(cfg, lengths, w, w')
    ensures w'.crashed <==> w.crashed || NextIsTooEarly(lengths, w)
  {
    hide TooEarly, Fired;
    var k :| IsEarliest(w.queue, k) && Fired(cfg, Popped(w, k), w', w.queue[k].act)
             && (w'.crashed <==> w.crashed || (w.queue[k].act.Tick? && TooEarly(lengths, Popped(w, k), w.queue[k].act.node)));
    if NextIsTooEarly(lengths, w) {
      var j :| IsEarliest(w.queue, j) && w.queue[j].act.Tick? && TooEarly(lengths, Popped(w, j), w.queue[j].act.node);
      EarliestIsUnique(w.queue, j, k);
    }
  }

  lemma {:induction false} OneMoreStep(cfg: SimConfig, lengths: seq<nat>, ws: seq<World>, w: World)
    requires IsRun(cfg, lengths, ws) && Stepped(cfg, lengths, ws[|ws| - 1], w)
    ensures IsRun(cfg, lengths, ws + [w])
    ensures (exists i :: 0 <= i < |ws + [w]| - 1 && NextIsTooEarly(lengths, (ws + [w])[i])) <==>
            (exists i :: 0 <= i < |ws| - 1 && NextIsTooEarly(lengths, ws[i])) || NextIsTooEarly(lengths, ws[|ws| - 1])
  {
    hide Stepped, NextIsTooEarly;
    var ws' := ws + [w];
    assert forall i :: 0 <= i < |ws| ==> ws'[i] == ws[i];
    if exists i :: 0 <= i < |ws| - 1 && NextIsTooEarly(lengths, ws[i]) {
      var i :| 0 <= i < |ws| - 1 && NextIsTooEarly(lengths, ws[i]);
      assert NextIsTooEarly(lengths, ws'[i]);
    }
    if NextIsTooEarly(lengths, ws[|ws| - 1]) {
      assert NextIsTooEarly(lengths, ws'[|ws| - 1]);
    }
  }

  lemma {:induction false} PeersAreLinks(lengths: seq<nat>, w: World, n: int, ids: seq<int>)
    requires Inv(lengths, w) && 0 <= n < |w.nodes| && PeersOf(w.nodes[n], ids)
    ensures AreLinks(w, n, ids)
  {
    hide Inv;
    forall k | 0 <= k < |ids| ensures IsLink(w, n, ids[k]) {
      assert ids[k] in ids;
      LinkFacts(lengths, w, n, ids[k]);
    }
  }

  lemma {:induction false} LinksAreNamed(w: World, n: int, ids: seq<int>)
    requires AreLinks(w, n, ids) && NamesOk(w.nodes)
    ensures Named(LinksOf(w, n, ids))
  {
    forall k | 0 <= k < |ids| ensures IsLink(w, n, ids[k]) {
    }
  }

  /** A check for churn: nothing for a node that has gone, else it goes, or is checked again later. */
  ghost predicate Checked(w: World, w': World, n: int, interval: int, cfg: SimConfig)
    requires 0 <= n < |w.nodes|
  {
    if !w.nodes[n].online then w' == w
    else w' == Scheduled(w, interval, ChurnCheck(n, interval)) || exists ids, ws :: WentOffline(w, w', n, true, cfg, ids, ws)
  }

  /** The worlds from the start to the one in which the first k links are down. */
  ghost predicate DroppedTo(start: World, w: World, n: int, ids: seq<int>, ws: seq<World>, k: nat) {
    && k <= |ids| && |ws| == k + 1 && ws[0] == start && ws[k] == w
    && forall j :: 0 <= j < k ==> Dropped(ws[j], ws[j + 1], n, ids[j])
  }

  /** The whole effect of takeOffline, by way of the worlds between its steps. */
  ghost predicate WentOffline(w: World, w': World, n: int, churnEligible: bool, cfg: SimConfig, ids: seq<int>, ws: seq<World>) {
    && 0 <= n < |w.nodes| && PeersOf(w.nodes[n], ids) && |ws| == |ids| + 1 && DroppedTo(w, ws[|ids|], n, ids, ws, |ids|)
    && n < |ws[|ids|].nodes|
    && var w1 := ws[|ids|];
    var w2 := w1.(nodes := w1.nodes[n := w1.nodes[n].(online := false)]);
    if churnEligible then ReturnsLater(w2, w', n, cfg) else w' == w2
  }

  /** A return is planned, after a time between the two bounds. */
  ghost predicate ReturnsLater(w: World, w': World, n: int, cfg: SimConfig) {
    exists delay :: cfg.offlineMin <= delay && (if cfg.offlineMax > cfg.offlineMin then delay < cfg.offlineMax else delay == cfg.offlineMin)
                    && w' == Scheduled(w, delay, Join(n, true))
  }

  lemma {:induction false} AllPeers(n: Node, ids: seq<int>)
    requires PeersOf(n, ids)
    ensures forall p :: p in ids <==> p in n.conns
  {
  }

  lemma {:induction false} Unrepeated(n: Node, ids: seq<int>, k: nat)
    requires PeersOf(n, ids) && k < |ids|
    ensures ids[k] !in ids[k + 1..]
  {
  }

  lemma {:induction false} DroppedLeaves(w: World, w': World, i: int, p: int)
    requires Dropped(w, w', i, p)
    ensures |w'.nodes| == |w.nodes| && w'.conns == w.conns && w'.crashed == w.crashed
    ensures w'.nodes[i].online == w.nodes[i].online && w'.nodes[i].joinedAt == w.nodes[i].joinedAt && w'.nodes[i].conns == w.nodes[i].conns - {p}
  {
  }

  lemma {:induction false} OneMoreDropped(start: World, w: World, w': World, n: int, ids: seq<int>, ws: seq<World>, k: nat)
    requires DroppedTo(start, w, n, ids, ws, k) && k < |ids| && Dropped(w, w', n, ids[k])
    ensures DroppedTo(start, w', n, ids, ws + [w'], k + 1)
  {
    hide Dropped;
    var ws' := ws + [w'];
    forall j | 0 <= j < k + 1 ensures Dropped(ws'[j], ws'[j + 1], n, ids[j]) {
      assert j < k ==> Dropped(ws[j], ws[j + 1], n, ids[j]);
    }
  }

  /** A node that goes: no link of it is left at either end, nobody else loses one, and it returns between the bounds or not at all. */
  lemma {:induction false} GoingMeans(w: World, w': World, n: int, churnEligible: bool, cfg: SimConfig, ids: seq<int>, ws: seq<World>)
    requires WentOffline(w, w', n, churnEligible, cfg, ids, ws)
    ensures |w'.nodes| == |w.nodes| && w'.conns == w.conns && !w'.nodes[n].online && w'.nodes[n].conns == map[]
    ensures forall i :: 0 <= i < |w.nodes| && i != n ==> w'.nodes[i].conns == w.nodes[i].conns - (if i in w.nodes[n].conns then {n} else {})
    ensures if churnEligible
            then |w'.queue| == |w.queue| + 1 && w'.queue[..|w.queue|] == w.queue && w'.queue[|w.queue|].act == Join(n, true)
                 && cfg.offlineMin <= w'.queue[|w.queue|].at - w.now && (w'.queue[|w.queue|].at - w.now < cfg.offlineMax || w'.queue[|w.queue|].at - w.now == cfg.offlineMin)
            else w'.queue == w.queue
  {
    hide Dropped, ReturnsLater, PeersOf;
    AllPeers(w.nodes[n], ids);
    assert ws[..|ids| + 1] == ws && ids[..|ids|] == ids;
    LinksGone(w, n, ids, ws, |ids|);
    var last := ws[|ids|];
    if last.nodes[n].conns.Keys != {} {
      var p := SomeMember(last.nodes[n].conns.Keys);
    }
    assert last.nodes[n].conns == map[];
    if churnEligible {
      Returns(last.(nodes := last.nodes[n := last.nodes[n].(online := false)]), w', n, cfg);
    }
  }

  lemma {:induction false} Returns(w: World, w': World, n: int, cfg: SimConfig)
    requires ReturnsLater(w, w', n, cfg)
    ensures w'.nodes == w.nodes && w'.conns == w.conns && |w'.queue| == |w.queue| + 1 && w'.queue[..|w.queue|] == w.queue
    ensures w'.queue[|w.queue|].act == Join(n, true)
    ensures cfg.offlineMin <= w'.queue[|w.queue|].at - w.now && (w'.queue[|w.queue|].at - w.now < cfg.offlineMax || w'.queue[|w.queue|].at - w.now == cfg.offlineMin)
  {
  }

  lemma {:induction false} LinksGone(w: World, n: int, ids: seq<int>, ws: seq<World>, k: nat)
    requires 0 <= n < |w.nodes| && PeersOf(w.nodes[n], ids) && k <= |ids| && |ws| > k && DroppedTo(w, ws[k], n, ids, ws[..k + 1], k)
    ensures var v := ws[k];
            && |v.nodes| == |w.nodes| && v.conns == w.conns && v.queue == w.queue && v.now == w.now
            && (forall p :: p in v.nodes[n].conns <==> p in w.nodes[n].conns && p !in ids[..k])
            && forall i :: 0 <= i < |w.nodes| && i != n ==> v.nodes[i].conns == w.nodes[i].conns - (if i in ids[..k] then {n} else {})
  {
    hide Dropped, PeersOf;
    AllPeers(w.nodes[n], ids);
    if k > 0 {
      var us := ws[..k + 1];
      assert us[..k] == ws[..k];
      forall j | 0 <= j < k - 1 ensures Dropped(ws[..k][j], ws[..k][j + 1], n, ids[j]) {
        assert Dropped(us[j], us[j + 1], n, ids[j]);
      }
      LinksGone(w, n, ids, ws, k - 1);
      assert Dropped(us[k - 1], us[k], n, ids[k - 1]);
      OneGone(ws[k - 1], ws[k], n, ids[k - 1]);
      assert ids[..k] == ids[..k - 1] + [ids[k - 1]];
    }
  }

  lemma {:induction false} OneGone(w: World, w': World, i: int, p: int)
    requires Dropped(w, w', i, p)
    ensures |w'.nodes| == |w.nodes| && w'.conns == w.conns && w'.queue == w.queue && w'.now == w.now && 0 <= p < |w.nodes| && p != i
    ensures w'.nodes[i].conns == w.nodes[i].conns - {p} && w'.nodes[p].conns == w.nodes[p].conns - {i}
    ensures forall j :: 0 <= j < |w.nodes| && j != i && j != p ==> w'.nodes[j] == w.nodes[j]
  {
  }

  lemma {:induction false} ActMeans(nodes: seq<Node>, conns: seq<Conn>, act: Action)
    requires ActOk(nodes, conns, act)
    ensures act.Join? || act.Tick? || act.ChokeTick? || act.ChurnCheck? ==> 0 <= act.node < |nodes|
    ensures act.ChurnCheck? ==> act.interval > 0
    ensures act.Handshake? ==> 0 <= act.conn < |conns|
    ensures NeedsView(act) ==> IsSide(conns, act.conn, act.side)
  {
  }

  lemma {:induction false} SeesAllMeans(w: World, c: int)
    requires SeesAll(w, c, 0) && SeesAll(w, c, 1)
    ensures Seen(w.conns, c, 0) && Seen(w.conns, c, 1)
  {
  }

  lemma {:induction false} SeenIsSome(conns: seq<Conn>, c: int, side: int)
    requires Seen(conns, c, side)
    ensures ViewOf(conns, c, side).Some?
  {
  }

  lemma {:induction false} ServedQuietly(cfg: SimConfig, w: World, w': World, c: int, side: int, req: Request)
    requires Served(cfg, w, w', c, side, req)
    ensures w'.crashed == w.crashed
  {
  }

  lemma {:induction false} SettledMeans(w: World, w': World)
    requires Settled(w, w')
    ensures Extends(w, w') && Quiet(w, w') && Steady(w, w') && |w'.nodes| == |w.nodes| && |w'.conns| == |w.conns|
  {
  }

  lemma {:induction false} LinkedAllGreets(w: World, n: int, others: seq<int>)
    ensures Greeted(w, LinkedAll(w, n, others), false) && w.queue <= LinkedAll(w, n, others).queue && |w.conns| <= |LinkedAll(w, n, others).conns|
  {
    if others != [] {
      var last := |others| - 1;
      var w1, w' := LinkedAll(w, n, others[..last]), LinkedAll(w, n, others);
      LinkedAllGreets(w, n, others[..last]);
      LinkedAllKeeps(w, n, others[..last]);
      forall c | |w.conns| <= c < |w'.conns| ensures HasHandshake(w, w', c) {
        if c < |w1.conns| {
          assert HasHandshake(w, w1, c);
          var h :| |w.queue| <= h < |w1.queue| && w1.queue[h].act == Handshake(c) && w1.queue[h].at == w.now + w.latency;
          assert w'.queue[h] == w1.queue[h];
        } else {
          assert w'.queue[|w1.queue|].act == Handshake(c);
        }
      }
    }
  }

  /** A node that joins schedules the handshakes of its links. */
  lemma {:induction false} JoinedGreets(w: World, n: int, chosen: seq<int>, churnEligible: bool, cfg: SimConfig)
    requires 0 <= n < |w.nodes|
    ensures Greeted(w, Joined(w, n, chosen, churnEligible, cfg), Churns(churnEligible, cfg)) && Joined(w, n, chosen, churnEligible, cfg).crashed == w.crashed
  {
    hide LinkedAll;
    var w1 := LinkedAll(Online(w, n), n, chosen);
    var w' := Joined(w, n, chosen, churnEligible, cfg);
    LinkedAllGreets(Online(w, n), n, chosen);
    LinkedAllKeeps(Online(w, n), n, chosen);
    forall c | |w.conns| <= c < |w'.conns| ensures HasHandshake(w, w', c) {
      assert HasHandshake(Online(w, n), w1, c);
      var h :| |w.queue| <= h < |w1.queue| && w1.queue[h].act == Handshake(c) && w1.queue[h].at == w.now + w.latency;
      assert w'.queue[h] == w1.queue[h];
    }
  }

  /** Some other nodes that are online, each once: as many as there are, up to the limit. */
  ghost predicate Choice(nodes: seq<Node>, n: int, chosen: seq<int>, maxPeers: int) {
    Candidates(nodes, n, chosen, []) && |chosen| == Min(if maxPeers < 0 then 0 else maxPeers, OthersOnline(nodes, n, |nodes|))
  }

  /** Other nodes that are online, chosen or left to choose from, each once. */
  ghost predicate Candidates(nodes: seq<Node>, n: int, chosen: seq<int>, left: seq<int>) {
    && (forall k :: 0 <= k < |chosen| ==> 0 <= chosen[k] < |nodes| && chosen[k] != n && nodes[chosen[k]].online && chosen[k] !in left)
    && (forall k :: 0 <= k < |left| ==> 0 <= left[k] < |nodes| && left[k] != n && nodes[left[k]].online)
    && (forall k, l :: 0 <= k < l < |chosen| ==> chosen[k] != chosen[l])
    && (forall k, l :: 0 <= k < l < |left| ==> left[k] < left[l])
  }

  /** A node that is online from now on. */
  function Online(w: World, n: int): (w': World)
    requires 0 <= n < |w.nodes|
  {
    w.(nodes := w.nodes[n := w.nodes[n].(online := true, joinedAt := w.now)])
  }

  /** Node n linked to all of these in turn, each handshake a latency away. */
  function LinkedAll(w: World, n: int, others: seq<int>): (w': World)
    ensures |w'.nodes| == |w.nodes|
  {
    if others == [] then w
    else
      var last := |others| - 1;
      var w1 := LinkedAll(w, n, others[..last]);
      if 0 <= n < |w.nodes| && 0 <= others[last] < |w.nodes| && n != others[last]
      then Scheduled(Linked(w1, n, others[last]), w.latency, Handshake(|w1.conns|)) else w1
  }

  predicate Churns(churnEligible: bool, cfg: SimConfig) {
    churnEligible && cfg.churn && cfg.churnInterval > 0
  }

  /** The whole effect of bringOnline. */
  function Joined(w: World, n: int, chosen: seq<int>, churnEligible: bool, cfg: SimConfig): (w': World)
    requires 0 <= n < |w.nodes|
  {
    var w1 := Scheduled(Scheduled(LinkedAll(Online(w, n), n, chosen), cfg.tickInterval, Tick(n)), cfg.chokeInterval, ChokeTick(n));
    if Churns(churnEligible, cfg) then Scheduled(w1, cfg.churnInterval, ChurnCheck(n, cfg.churnInterval)) else w1
  }

  lemma {:induction false} NobodyLinked(w: World, n: int)
    ensures LinkedAll(w, n, []) == w
  {
  }

  /** Links change no more than who is linked. */
  lemma {:induction false} LinkedAllKeeps(w: World, n: int, others: seq<int>)
    ensures var w' := LinkedAll(w, n, others);
            && w'.latency == w.latency && w'.now == w.now && |w'.nodes| == |w.nodes| && w'.crashed == w.crashed
            && forall i :: 0 <= i < |w.nodes| ==> SameButLinks(w.nodes[i], w'.nodes[i])
  {
    if others != [] {
      LinkedAllKeeps(w, n, others[..|others| - 1]);
    }
  }

  /** Connection c joins n and p, is known to both, and nothing has been seen over it. */
  ghost predicate IsFresh(w: World, n: int, p: int, c: int) {
    && 0 <= n < |w.nodes| && 0 <= p < |w.nodes| && 0 <= c < |w.conns| && w.conns[c] == Conn([n, p], [NO_END, NO_END])
    && p in w.nodes[n].conns && w.nodes[n].conns[p] == c && n in w.nodes[p].conns && w.nodes[p].conns[n] == c
  }

  /** One connection for each, in turn. */
  lemma {:induction false} LinkedAllLinks(w: World, n: int, others: seq<int>, k: nat)
    requires 0 <= n < |w.nodes| && k < |others|
    requires forall j :: 0 <= j < |others| ==> 0 <= others[j] < |w.nodes| && others[j] != n
    requires forall i, j :: 0 <= i < j < |others| ==> others[i] != others[j]
    ensures |LinkedAll(w, n, others).conns| == |w.conns| + |others| && IsFresh(LinkedAll(w, n, others), n, others[k], |w.conns| + k)
  {
    hide Linked, Scheduled, IsFresh;
    var last := |others| - 1;
    var front := others[..last];
    var w1 := LinkedAll(w, n, front);
    if last > 0 {
      LinkedAllLinks(w, n, front, if k < last then k else 0);
    } else {
      NobodyLinked(w, n);
      assert front == [];
    }
    LinkedOne(w1, n, others[last], w.latency, if k < last then others[k] else others[last], |w.conns| + k);
  }

  lemma {:induction false} LinkedOne(w: World, n: int, p: int, latency: int, q: int, c: int)
    requires 0 <= n < |w.nodes| && 0 <= p < |w.nodes| && n != p
    ensures var w' := Scheduled(Linked(w, n, p), latency, Handshake(|w.conns|));
            && |w'.conns| == |w.conns| + 1 && IsFresh(w', n, p, |w.conns|) && (IsFresh(w, n, q, c) && q != p ==> IsFresh(w', n, q, c))
  {
  }

  lemma {:induction false} OneMoreLinked(w: World, n: int, chosen: seq<int>, left: seq<int>, j: nat)
    requires Candidates(w.nodes, n, chosen, left) && j < |left| && 0 <= n < |w.nodes|
    ensures Candidates(w.nodes, n, chosen + [left[j]], left[..j] + left[j + 1..])
    ensures var w1 := LinkedAll(w, n, chosen);
            LinkedAll(w, n, chosen + [left[j]]) == Scheduled(Linked(w1, n, left[j]), w.latency, Handshake(|w1.conns|))
  {
    hide Linked, Scheduled;
    var all, rest := chosen + [left[j]], left[..j] + left[j + 1..];
    assert all[..|chosen|] == chosen;
    assert forall k :: 0 <= k < |rest| ==> rest[k] == left[if k < j then k else k + 1];
    assert left[j] in left;
    assert forall l :: 0 <= l < |rest| ==> rest[l] in left && rest[l] != left[j];
  }

  /** How many of the first k nodes other than n are online. */
  function OthersOnline(nodes: seq<Node>, n: int, k: nat): (c: nat)
    requires k <= |nodes|
  {
    if k == 0 then 0 else OthersOnline(nodes, n, k - 1) + if k - 1 != n && nodes[k - 1].online then 1 else 0
  }

  lemma {:induction false} OthersStay(nodes: seq<Node>, nodes': seq<Node>, n: int, k: nat)
    requires |nodes| == |nodes'| && k <= |nodes| && forall i :: 0 <= i < |nodes| && i != n ==> nodes'[i].online == nodes[i].online
    ensures OthersOnline(nodes', n, k) == OthersOnline(nodes, n, k)
  {
    if k > 0 {
      OthersStay(nodes, nodes', n, k - 1);
    }
  }

  function EffectiveRate(up: int, down: int): (rate: int)
    ensures rate <= 0 <==> up <= 0 && down <= 0
    ensures rate > 0 ==> (up > 0 ==> rate <= up) && (down > 0 ==> rate <= down) && (rate == up || rate == down)
  {
    if up <= 0 && down <= 0 then 0 else if up <= 0 then down else if down <= 0 then up else if up < down then up else down
  }

  /** How long a transfer takes, rounded down to nanoseconds. */
  function TransferTime(length: int, rate: int): (t: nat) {
    if rate <= 0 || length <= 0 then 0 else (length * SECOND) / rate
  }

  /** A block that is served arrives after the latency and the time its bytes take at the smaller of the two rates; nothing limits them without a rate. */
  lemma {:induction false} ServingTakesTime(cfg: SimConfig, w: World, w': World, c: int, side: int, req: Request)
    requires Served(cfg, w, w', c, side, req) && req.length > 0
    ensures var provider, requester := w.nodes[w.conns[c].nodes[1 - side]], w.nodes[w.conns[c].nodes[side]];
            if !provider.online || w.conns[c].ends[1 - side].choking then w' == w
            else
              && |w'.queue| == |w.queue| + 1 && w'.queue[..|w.queue|] == w.queue && w'.queue[|w.queue|].act == Deliver(c, side, req)
              && IsTransfer(w'.queue[|w.queue|].at - w.now - cfg.latency, req.length, provider.upRate, requester.downRate)
  {
    var provider, requester := w.nodes[w.conns[c].nodes[1 - side]], w.nodes[w.conns[c].nodes[side]];
    TransferIs(req.length, provider.upRate, requester.downRate);
  }

  /** The least whole number of nanoseconds, less one at most, in which either rate lets the bytes through. */
  ghost predicate IsTransfer(t: int, length: int, up: int, down: int) {
    && t >= 0 && (up <= 0 && down <= 0 ==> t == 0)
    && (up > 0 ==> length * 1_000_000_000 < (t + 1) * up)
    && (down > 0 ==> length * 1_000_000_000 < (t + 1) * down)
    && ((up > 0 && t * up <= length * 1_000_000_000) || (down > 0 && t * down <= length * 1_000_000_000) || t == 0)
  }

  lemma {:induction false} TransferIs(length: int, up: int, down: int)
    requires length > 0
    ensures IsTransfer(TransferTime(length, EffectiveRate(up, down)), length, up, down)
  {
    var rate := EffectiveRate(up, down);
    var t := TransferTime(length, rate);
    if rate > 0 {
      DivBounds(length * SECOND, rate);
      hide TransferTime;
      if up > 0 {
        Slower(t + 1, rate, up);
      }
      if down > 0 {
        Slower(t + 1, rate, down);
      }
    }
  }

  lemma {:induction false} DivBounds(x: int, d: int)
    requires d > 0
    ensures x / d * d <= x < (x / d + 1) * d
  {
    assert x == d * (x / d) + x % d;
    assert (x / d + 1) * d == x / d * d + d;
  }

  lemma {:induction false} Slower(t: int, a: int, b: int)
    requires t >= 0 && a <= b
    ensures t * a <= t * b
  {
  }

  lemma {:induction false} OrderedAppend(ids: seq<int>, p: int)
    requires forall k, l :: 0 <= k < l < |ids| ==> ids[k] < ids[l]
    requires forall q :: q in ids ==> q < p
    ensures forall k, l :: 0 <= k < l < |ids + [p]| ==> (ids + [p])[k] < (ids + [p])[l]
  {
    assert forall k :: 0 <= k < |ids| ==> ids[k] in ids;
  }

  lemma {:induction false} NodeFacts(lengths: seq<nat>, w: World, i: int)
    requires Inv(lengths, w) && 0 <= i < |w.nodes|
    ensures NodeOk(lengths, w.nodes[i])
  {
  }

  lemma {:induction false} LinkFacts(lengths: seq<nat>, w: World, i: int, p: int)
    requires Inv(lengths, w) && 0 <= i < |w.nodes| && p in w.nodes[i].conns
    ensures 0 <= p < |w.nodes| && p != i
    ensures var c := w.nodes[i].conns[p];
            && 0 <= c < |w.conns| && ConnOk(w.nodes, w.conns[c])
            && 0 <= IndexOf(w.conns[c], i) < 2 && w.conns[c].nodes[IndexOf(w.conns[c], i)] == i
            && w.conns[c].nodes[1 - IndexOf(w.conns[c], i)] == p
            && i in w.nodes[p].conns && w.nodes[p].conns[i] == c
  {
    assert LinkOk(w.nodes, w.conns, i, p);
    assert ConnOk(w.nodes, w.conns[w.nodes[i].conns[p]]);
  }

  lemma {:induction false} SettledKeepsConns(w: World, w': World, c: int)
    requires Settled(w, w') && 0 <= c < |w.conns|
    ensures c < |w'.conns| == |w.conns| && w'.conns[c].nodes == w.conns[c].nodes
  {
  }

  lemma {:induction false} SettledKeepsSeen(w: World, w': World, c: int, side: int)
    requires Settled(w, w') && Seen(w.conns, c, side)
    ensures Seen(w'.conns, c, side)
  {
    hide Extends;
    SeenStays(w, w', c, side);
  }

  lemma {:induction false} ExtendsItself(w: World)
    ensures Extends(w, w)
  {
  }

  lemma {:induction false} SettledKeepsLinks(w: World, w': World, i: int)
    requires Settled(w, w') && 0 <= i < |w.nodes|
    ensures |w'.nodes| == |w.nodes| && SameHoldings(w.nodes[i], w'.nodes[i])
  {
  }

  lemma {:induction false} NodeSettles(w: World, i: int, n: Node)
    requires 0 <= i < |w.nodes| && SameStanding(w.nodes[i], n)
    ensures Settled(w, w.(nodes := w.nodes[i := n]))
  {
  }

  lemma {:induction false} CountingKeepsNode(lengths: seq<nat>, n: Node, n': Node)
    requires NodeOk(lengths, n) && n' == n.(timesChoked := n'.timesChoked, timesUnchoked := n'.timesUnchoked, choke := n'.choke)
    ensures NodeOk(lengths, n') && SameStanding(n, n')
  {
  }

  function ForgetView(pick: PickerState.State, view: Option<set<int>>): (pick': PickerState.State) {
    if view.None? then pick else pick.(avail := AvailabilityIndex.Removed(pick.avail, view.value))
  }

  lemma {:induction false} ForgetKeeps(lengths: seq<nat>, n: Node, view: Option<set<int>>)
    requires NodeOk(lengths, n)
    ensures NodeOk(lengths, n.(pick := ForgetView(n.pick, view)))
  {
    hide NodeOk;
    if view.Some? {
      AvailChanges(lengths, n, AvailabilityIndex.Removed(n.pick.avail, view.value));
    }
    assert n.(pick := n.pick) == n;
  }

  lemma {:induction false} ExpireKeepsNode(lengths: seq<nat>, n: Node, now: int, pick: PickerState.State)
    requires NodeOk(lengths, n) && PickerState.Valid(pick)
    requires PickerState.Releases(n.pick, pick, Picker.Overdue(n.pick, now))
    ensures NodeOk(lengths, n.(pick := pick))
  {
  }

  lemma {:induction false} LengthsPositive(lengths: seq<nat>, w: World)
    requires Inv(lengths, w)
    ensures |lengths| > 0
  {
  }

  /** What the invariant says in the end. */
  lemma {:induction false} InvMeans(lengths: seq<nat>, w: World)
    requires Inv(lengths, w)
    ensures w.pending == 0 <==> forall i :: 0 <= i < |w.nodes| && !w.nodes[i].seed ==> w.nodes[i].completedAt.Some?
    ensures w.pending == 0 <==> forall i :: 0 <= i < |w.nodes| ==> HasAll(lengths, w.nodes[i].have)
    ensures w.pending >= 0 && TotalUp(w.nodes) == TotalDown(w.nodes)
    ensures (forall i :: 0 <= i < |w.nodes| ==> !w.nodes[i].seed) ==> forall i :: 0 <= i < |w.nodes| ==> w.nodes[i].have == {}
  {
    hide ConnsOk, LinksOk, QueueOk, FlowOk, HasAll, PickerState.Valid;
    UnfinishedIsZero(w.nodes);
    BalanceIsDifference(w.nodes);
    assert forall i :: 0 <= i < |w.nodes| ==> NodeOk(lengths, w.nodes[i]);
  }

  // ---------- a run that ends in a crash ----------

  /** Two nodes yet to join, the second just before the first one's first tick. */
  ghost predicate TwoToJoin(w: World) {
    && |w.nodes| == 2 && w.conns == [] && w.now == 0 && w.seqNo == 2 && !w.crashed && w.latency == 50_000_000
    && !w.nodes[0].online && !w.nodes[1].online && w.nodes[0].conns == w.nodes[1].conns == map[] && w.nodes[0].have == {}
    && w.queue == [Event(0, 1, Join(0, false)), Event(SECOND - 1, 2, Join(1, false))]
  }

  ghost predicate OneToJoin(w: World) {
    && |w.nodes| == 2 && w.conns == [] && w.now == 0 && w.seqNo == 4 && !w.crashed && w.latency == 50_000_000
    && w.nodes[0].online && !w.nodes[1].online && w.nodes[0].conns == w.nodes[1].conns == map[] && w.nodes[0].have == {}
    && w.queue == [Event(SECOND - 1, 2, Join(1, false)), Event(SECOND, 3, Tick(0)), Event(10 * SECOND, 4, ChokeTick(0))]
  }

  /** The first one's tick comes first, and the handshake of its link after it. */
  ghost predicate TickIsNext(w: World) {
    && |w.nodes| == 2 && w.conns == [Conn([1, 0], [NO_END, NO_END])]
    && w.nodes[0].online && w.nodes[0].conns == map[1 := 0] && w.nodes[0].have == {}
    && |w.queue| > 0 && w.queue[0] == Event(SECOND, 3, Tick(0)) && forall j :: 0 < j < |w.queue| ==> w.queue[j].at > SECOND
  }

  lemma {:induction false} JoinIsNext(cfg: SimConfig, lengths: seq<nat>, w: World, w': World, n: int)
    requires |w.queue| > 0 && w.queue[0].act == Join(n, false) && IsEarliest(w.queue, 0) && Stepped(cfg, lengths, w, w')
    ensures 0 <= n < |w.nodes| && exists chosen :: Choice(w.nodes, n, chosen, cfg.maxPeers) && w' == Joined(Popped(w, 0), n, chosen, false, cfg)
  {
    hide Choice, Joined, TooEarly;
    var k :| IsEarliest(w.queue, k) && Fired(cfg, Popped(w, k), w', w.queue[k].act);
    EarliestIsUnique(w.queue, 0, k);
  }

  lemma {:induction false} FirstJoins(cfg: SimConfig, lengths: seq<nat>, w: World, w': World)
    requires TwoToJoin(w) && Stepped(cfg, lengths, w, w') && cfg.tickInterval == SECOND && cfg.chokeInterval == 10 * SECOND
    ensures OneToJoin(w') && w'.queue != []
  {
    hide Stepped;
    JoinIsNext(cfg, lengths, w, w', 0);
    var chosen :| Choice(w.nodes, 0, chosen, cfg.maxPeers) && w' == Joined(Popped(w, 0), 0, chosen, false, cfg);
    assert chosen == [];
  }

  lemma {:induction false} SecondJoins(cfg: SimConfig, lengths: seq<nat>, w: World, w': World)
    requires OneToJoin(w) && Stepped(cfg, lengths, w, w') && cfg.tickInterval == SECOND && cfg.chokeInterval == 10 * SECOND && cfg.maxPeers > 0
    ensures TickIsNext(w') && w'.queue != []
  {
    hide Stepped;
    JoinIsNext(cfg, lengths, w, w', 1);
    var chosen :| Choice(w.nodes, 1, chosen, cfg.maxPeers) && w' == Joined(Popped(w, 0), 1, chosen, false, cfg);
    assert OthersOnline(w.nodes, 1, 1) == 1 && OthersOnline(w.nodes, 1, 2) == 1;
    assert chosen == [0];
    NobodyLinked(Online(Popped(w, 0), 1), 1);
  }

  lemma {:induction false} TickCrashes(cfg: SimConfig, lengths: seq<nat>, w: World, w': World)
    requires TickIsNext(w) && |lengths| > 0 && Stepped(cfg, lengths, w, w')
    ensures w'.crashed
  {
    hide Fired;
    assert IsEarliest(w.queue, 0);
    assert !HasAll(lengths, w.nodes[0].have) by {
      assert 0 !in w.nodes[0].have;
    }
    assert Blind(Popped(w, 0), 0, 1);
    StepCrashes(cfg, lengths, w, w');
  }

  /** A node joins a moment before another one's tick: the third event is that tick, and it dereferences a view that is not there. */
  method TickBeforeHandshake() returns (s: Swarm)
    ensures s.crashed && |s.nodes| == 2
  {
    hide Stepped, Inv, Count, TimelyBut, HasAll, OneToJoin, TickIsNext;
    s := new Swarm(SimConfig(1, 1, 0, 0, 0, 0, 0, 0, false, 0, 0, true, 0));
    var _ := s.AddNode("leech", false, 0, 0, PickerState.RarestFirst, 0, false);
    var _ := s.AddNode("seed", true, 0, 0, PickerState.RarestFirst, SECOND - 1, false);
    ghost var w0 := s.View();
    assert TwoToJoin(w0);
    hide TwoToJoin;
    var _ := s.Step();
    ghost var w1 := s.View();
    FirstJoins(s.cfg, s.lengths, w0, w1);
    var _ := s.Step();
    ghost var w2 := s.View();
    SecondJoins(s.cfg, s.lengths, w1, w2);
    var _ := s.Step();
    TickCrashes(s.cfg, s.lengths, w2, s.View());
  }
}
