/** The simulated swarm: its nodes, links and scheduled events, and what every run keeps. internal/simulator. */
module SwarmState {
  import opened Bytes
  import opened Blocks
  import opened PickerState
  import Choking

  const PIPELINE_CAP := 12

  datatype Node = Node(id: string, seed: bool, pick: State, have: set<int>, upRate: int, downRate: int, online: bool, conns: map<int, int>,
                       joinedAt: int, completedAt: Option<int>, bytesUp: int, bytesDown: int, timesChoked: int, timesUnchoked: int,
                       choke: Choking.Memory)

  /** One side's part of a connection; no view before the handshake lands. */
  datatype End = End(view: Option<set<int>>, interested: bool, choking: bool, outstanding: int, received: int)

  /** ends[k] belongs to nodes[k]. */
  datatype Conn = Conn(nodes: seq<int>, ends: seq<End>)

  /** What a scheduled closure does, with what it captured. */
  datatype Action = Join(node: int, churn: bool)
                  | Handshake(conn: int)
                  | Serve(conn: int, side: int, req: Request)
                  | Deliver(conn: int, side: int, req: Request)
                  | HaveArrives(conn: int, side: int, index: int)
                  | Unchoked(conn: int, side: int)
                  | Tick(node: int)
                  | ChokeTick(node: int)
                  | ChurnCheck(node: int, interval: int)

  datatype Event = Event(at: int, seqNo: int, act: Action)

  datatype World = World(nodes: seq<Node>, conns: seq<Conn>, queue: seq<Event>, now: int, seqNo: int, pending: int, crashed: bool, latency: int, tick: int)

  /** Names are not empty and each is used once. */
  ghost predicate NamesOk(nodes: seq<Node>) {
    && (forall i :: 0 <= i < |nodes| ==> nodes[i].id != "")
    && (forall i, j :: 0 <= i < j < |nodes| ==> nodes[i].id != nodes[j].id)
  }

  // ---------- counting events ----------

  /** Events on their way for one side of one connection, or events due at one moment. */
  datatype What = Transfer(conn: int, side: int) | Due(at: int)

  predicate Matches(e: Event, what: What) {
    match what
    case Due(at) => e.at == at
    case Transfer(c, side) => (e.act.Serve? || e.act.Deliver?) && e.act.conn == c && e.act.side == side
  }

  function Count(queue: seq<Event>, what: What): (n: nat) {
    if queue == [] then 0 else (if Matches(queue[0], what) then 1 else 0) + Count(queue[1..], what)
  }

  lemma {:induction false} CountConcat(a: seq<Event>, b: seq<Event>, what: What)
    ensures Count(a + b, what) == Count(a, what) + Count(b, what)
    decreases |a|
  {
    if a == [] {
      assert a + b == b;
    } else {
      assert (a + b)[1..] == a[1..] + b;
      CountConcat(a[1..], b, what);
    }
  }

  lemma {:induction false} CountAppend(a: seq<Event>, e: Event, what: What)
    ensures Count(a + [e], what) == Count(a, what) + if Matches(e, what) then 1 else 0
  {
    CountConcat(a, [e], what);
    assert [e][1..] == [];
  }

  lemma {:induction false} CountRemove(a: seq<Event>, k: nat, what: What)
    requires k < |a|
    ensures Count(a, what) == Count(a[..k] + a[k + 1..], what) + if Matches(a[k], what) then 1 else 0
  {
    assert a == a[..k] + ([a[k]] + a[k + 1..]);
    CountConcat(a[..k], [a[k]] + a[k + 1..], what);
    CountConcat([a[k]], a[k + 1..], what);
    assert [a[k]][1..] == [];
    CountConcat(a[..k], a[k + 1..], what);
  }

  // ---------- totals over the nodes ----------

  function Unfinished(nodes: seq<Node>): (n: nat) {
    if nodes == [] then 0 else (if !nodes[0].seed && nodes[0].completedAt.None? then 1 else 0) + Unfinished(nodes[1..])
  }

  /** Bytes sent less bytes received, over all nodes. */
  function Balance(nodes: seq<Node>): (n: int) {
    if nodes == [] then 0 else nodes[0].bytesUp - nodes[0].bytesDown + Balance(nodes[1..])
  }

  function TotalUp(nodes: seq<Node>): (n: int) {
    if nodes == [] then 0 else nodes[0].bytesUp + TotalUp(nodes[1..])
  }

  function TotalDown(nodes: seq<Node>): (n: int) {
    if nodes == [] then 0 else nodes[0].bytesDown + TotalDown(nodes[1..])
  }

  lemma {:induction false} BalanceIsDifference(nodes: seq<Node>)
    ensures Balance(nodes) == TotalUp(nodes) - TotalDown(nodes)
  {
    if nodes != [] {
      BalanceIsDifference(nodes[1..]);
    }
  }

  lemma {:induction false} TotalsAfter(nodes: seq<Node>, i: nat, n: Node)
    requires i < |nodes|
    ensures Balance(nodes[i := n]) == Balance(nodes) - (nodes[i].bytesUp - nodes[i].bytesDown) + (n.bytesUp - n.bytesDown)
    ensures Unfinished(nodes[i := n]) == Unfinished(nodes)
              - (if !nodes[i].seed && nodes[i].completedAt.None? then 1 else 0) + (if !n.seed && n.completedAt.None? then 1 else 0)
  {
    if i > 0 {
      TotalsAfter(nodes[1..], i - 1, n);
      assert nodes[i := n][1..] == nodes[1..][i - 1 := n];
    } else {
      assert nodes[i := n][1..] == nodes[1..];
    }
  }

  lemma {:induction false} TotalsAppend(nodes: seq<Node>, n: Node)
    ensures Balance(nodes + [n]) == Balance(nodes) + (n.bytesUp - n.bytesDown)
    ensures Unfinished(nodes + [n]) == Unfinished(nodes) + (if !n.seed && n.completedAt.None? then 1 else 0)
  {
    if nodes == [] {
      assert nodes + [n] == [n] && [n][1..] == [];
    } else {
      assert (nodes + [n])[1..] == nodes[1..] + [n];
      TotalsAppend(nodes[1..], n);
    }
  }

  /** The counter is zero exactly when every node that has something to finish has finished. */
  lemma {:induction false} UnfinishedIsZero(nodes: seq<Node>)
    ensures Unfinished(nodes) == 0 <==> forall i :: 0 <= i < |nodes| && !nodes[i].seed ==> nodes[i].completedAt.Some?
  {
    if nodes != [] {
      UnfinishedIsZero(nodes[1..]);
      assert forall i :: 0 < i < |nodes| ==> nodes[i] == nodes[1..][i - 1];
      assert forall i :: 0 <= i < |nodes[1..]| ==> nodes[1..][i] == nodes[i + 1];
    }
  }

  // ---------- the invariant ----------

  ghost predicate HasAll(lengths: seq<nat>, have: set<int>) {
    forall i :: 0 <= i < |lengths| ==> i in have
  }

  ghost predicate NodeOk(lengths: seq<nat>, n: Node) {
    && Valid(n.pick) && n.pick.cfg.lengths == lengths && n.pick.priority == None && n.pick.have == n.have
    && if n.seed then n.completedAt.None? && HasAll(lengths, n.have) else n.completedAt.Some? <==> HasAll(lengths, n.have)
  }

  ghost predicate ConnOk(nodes: seq<Node>, k: Conn) {
    && |k.nodes| == 2 && |k.ends| == 2
    && 0 <= k.nodes[0] < |nodes| && 0 <= k.nodes[1] < |nodes| && k.nodes[0] != k.nodes[1]
    && EndOk(nodes, k, 0) && EndOk(nodes, k, 1)
  }

  /** A view never claims a piece the far side lacks. */
  ghost predicate EndOk(nodes: seq<Node>, k: Conn, side: int)
    requires |k.nodes| == 2 && |k.ends| == 2 && 0 <= side < 2 && 0 <= k.nodes[1 - side] < |nodes|
  {
    && k.ends[side].outstanding <= PIPELINE_CAP
    && (k.ends[side].view.Some? ==> k.ends[side].view.value <= nodes[k.nodes[1 - side]].have)
  }

  /** Links are known to both ends, and join two nodes that are online. */
  ghost predicate LinkOk(nodes: seq<Node>, conns: seq<Conn>, i: int, p: int)
    requires 0 <= i < |nodes| && p in nodes[i].conns
  {
    var c := nodes[i].conns[p];
    && 0 <= p < |nodes| && p != i && 0 <= c < |conns|
    && (conns[c].nodes == [i, p] || conns[c].nodes == [p, i])
    && i in nodes[p].conns && nodes[p].conns[i] == c
    && nodes[i].online && nodes[p].online
  }

  predicate IsSide(conns: seq<Conn>, c: int, side: int) {
    0 <= c < |conns| && 0 <= side < 2 && |conns[c].nodes| == 2
  }

  function HaveOf(nodes: seq<Node>, i: int): (have: set<int>) {
    if 0 <= i < |nodes| then nodes[i].have else {}
  }

  ghost predicate ActOk(nodes: seq<Node>, conns: seq<Conn>, act: Action) {
    match act
    case Join(n, _) => 0 <= n < |nodes|
    case Tick(n) => 0 <= n < |nodes|
    case ChokeTick(n) => 0 <= n < |nodes|
    case ChurnCheck(n, interval) => 0 <= n < |nodes| && interval > 0
    case Handshake(c) => 0 <= c < |conns|
    case Unchoked(c, side) => IsSide(conns, c, side)
    case Serve(c, side, req) => IsSide(conns, c, side) && req.index in HaveOf(nodes, conns[c].nodes[1 - side])
    case Deliver(c, side, req) => IsSide(conns, c, side) && req.index in HaveOf(nodes, conns[c].nodes[1 - side])
    case HaveArrives(c, side, index) => IsSide(conns, c, side) && index in HaveOf(nodes, conns[c].nodes[1 - side])
  }

  ghost predicate NodesOk(lengths: seq<nat>, nodes: seq<Node>) {
    forall i :: 0 <= i < |nodes| ==> NodeOk(lengths, nodes[i])
  }

  ghost predicate ConnsOk(nodes: seq<Node>, conns: seq<Conn>) {
    forall c :: 0 <= c < |conns| ==> ConnOk(nodes, conns[c])
  }

  ghost predicate LinksOk(nodes: seq<Node>, conns: seq<Conn>) {
    forall i, p :: 0 <= i < |nodes| && p in nodes[i].conns ==> LinkOk(nodes, conns, i, p)
  }

  ghost predicate QueueOk(nodes: seq<Node>, conns: seq<Conn>, queue: seq<Event>, now: int) {
    forall k :: 0 <= k < |queue| ==> queue[k].at >= now && ActOk(nodes, conns, queue[k].act)
  }

  function OutstandingOf(conns: seq<Conn>, c: int, side: int): (n: int) {
    if 0 <= c < |conns| && 0 <= side < |conns[c].ends| then conns[c].ends[side].outstanding else 0
  }

  /** What is in flight for a side never exceeds what it counts as outstanding. */
  ghost predicate FlowOk(conns: seq<Conn>, queue: seq<Event>) {
    forall c, side :: Count(queue, Transfer(c, side)) <= OutstandingOf(conns, c, side)
  }

  /** A piece that no node starts with is held by none: without a seed nobody has anything. */
  ghost predicate OriginOk(nodes: seq<Node>) {
    (forall i :: 0 <= i < |nodes| ==> !nodes[i].seed) ==> forall i :: 0 <= i < |nodes| ==> nodes[i].have == {}
  }

  ghost predicate Inv(lengths: seq<nat>, w: World) {
    && |lengths| > 0
    && NodesOk(lengths, w.nodes) && ConnsOk(w.nodes, w.conns) && LinksOk(w.nodes, w.conns)
    && QueueOk(w.nodes, w.conns, w.queue, w.now) && FlowOk(w.conns, w.queue)
    && OriginOk(w.nodes)
    && w.pending == Unfinished(w.nodes) && Balance(w.nodes) == 0
  }

  // ---------- how the world may change ----------

  function ViewOf(conns: seq<Conn>, c: int, side: int): (view: Option<set<int>>) {
    if 0 <= c < |conns| && 0 <= side < |conns[c].ends| then conns[c].ends[side].view else None
  }

  predicate ViewGrows(v: Option<set<int>>, v': Option<set<int>>) {
    v.Some? ==> v'.Some? && v.value <= v'.value
  }

  /** A side has its view of the far side: the handshake has landed. */
  predicate Seen(conns: seq<Conn>, c: int, side: int) {
    0 <= c < |conns| && 0 <= side < 2 && ViewOf(conns, c, side).Some?
  }

  /** What needs a side's view of the far side: a request and its answer, a Have that arrives, an unchoke that is noticed. */
  predicate NeedsView(act: Action) {
    act.Serve? || act.Deliver? || act.HaveArrives? || act.Unchoked?
  }

  predicate Uses(act: Action, c: int, side: int) {
    NeedsView(act) && act.conn == c && act.side == side
  }

  /** Events are numbered in the order in which they were scheduled. */
  ghost predicate InSequence(queue: seq<Event>, seqNo: int) {
    && (forall k :: 0 <= k < |queue| ==> queue[k].seqNo <= seqNo)
    && (forall j, k :: 0 <= j < k < |queue| ==> queue[j].seqNo < queue[k].seqNo)
  }

  /** An event scheduled since w: a Have or an unchoke takes a latency to arrive, and requests need a view. */
  ghost predicate NewOk(w: World, w': World, e: Event) {
    && w.seqNo < e.seqNo <= w'.seqNo && e.at >= w.now
    && (e.act.HaveArrives? || e.act.Unchoked? ==> e.at >= w.now + w.latency)
    && (e.act.Tick? ==> e.at >= w.now + w.tick)
    && (e.act.Handshake? ==> e.at <= w.now + w.latency)
    && (e.act.Serve? || e.act.Deliver? ==> Seen(w'.conns, e.act.conn, e.act.side))
  }

  /** Events are only added, in sequence. */
  ghost predicate Appended(w: World, w': World) {
    && w'.latency == w.latency && w'.tick == w.tick && w.seqNo <= w'.seqNo && w.queue <= w'.queue
    && (InSequence(w.queue, w.seqNo) ==> InSequence(w'.queue, w'.seqNo))
    && (forall k :: |w.queue| <= k < |w'.queue| ==> NewOk(w, w', w'.queue[k]))
  }

  /** What every handler leaves alone: names, who is linked by what, the clock, what is scheduled already; pieces held and seen are kept. */
  ghost predicate Extends(w: World, w': World) {
    && Appended(w, w')
    && |w'.nodes| == |w.nodes| && |w.conns| <= |w'.conns| && w'.now == w.now
    && (forall c :: 0 <= c < |w.conns| ==> w'.conns[c].nodes == w.conns[c].nodes)
    && (forall i :: 0 <= i < |w.nodes| ==> w.nodes[i].have <= w'.nodes[i].have && w'.nodes[i].id == w.nodes[i].id)
    && (forall c, side :: 0 <= c < |w.conns| && 0 <= side < 2 ==> ViewGrows(ViewOf(w.conns, c, side), ViewOf(w'.conns, c, side)))
    && Count(w'.queue, Due(w.now)) == Count(w.queue, Due(w.now))
    && (w.crashed ==> w'.crashed)
  }

  lemma {:induction false} ExtendsTransitive(a: World, b: World, c: World)
    requires Extends(a, b) && Extends(b, c)
    ensures Extends(a, c)
  {
    hide Count, ViewOf, Appended;
    forall i | 0 <= i < |a.nodes| ensures a.nodes[i].have <= c.nodes[i].have && c.nodes[i].id == a.nodes[i].id {
      assert a.nodes[i].have <= b.nodes[i].have;
    }
    forall k, side | 0 <= k < |a.conns| && 0 <= side < 2 ensures ViewGrows(ViewOf(a.conns, k, side), ViewOf(c.conns, k, side)) {
      assert ViewGrows(ViewOf(a.conns, k, side), ViewOf(b.conns, k, side));
    }
    forall k, side | Seen(b.conns, k, side) ensures Seen(c.conns, k, side) {
      assert ViewGrows(ViewOf(b.conns, k, side), ViewOf(c.conns, k, side));
    }
    AppendedTransitive(a, b, c);
  }

  lemma {:induction false} AppendedTransitive(a: World, b: World, c: World)
    requires Appended(a, b) && Appended(b, c) && a.now == b.now
    requires forall k, side :: Seen(b.conns, k, side) ==> Seen(c.conns, k, side)
    ensures Appended(a, c)
  {
    hide InSequence, Seen;
    forall k | |a.queue| <= k < |c.queue| ensures NewOk(a, c, c.queue[k]) {
      if k < |b.queue| {
        assert c.queue[k] == b.queue[k] && NewOk(a, b, b.queue[k]);
      }
    }
  }

  /** In addition no connection is made, no link comes or goes, no node comes or goes, and no piece or byte arrives. */
  ghost predicate Settled(w: World, w': World) {
    && Extends(w, w') && |w'.conns| == |w.conns| && Quiet(w, w')
    && forall i :: 0 <= i < |w.nodes| ==> SameHoldings(w.nodes[i], w'.nodes[i])
  }

  /** No connection is made, and nothing new comes or goes, or is greeted. */
  ghost predicate Steady(w: World, w': World) {
    Extends(w, w') && |w'.conns| == |w.conns| && Quiet(w, w')
  }

  lemma {:induction false} SteadyTransitive(a: World, b: World, c: World)
    requires Steady(a, b) && Steady(b, c)
    ensures Steady(a, c)
  {
    ExtendsTransitive(a, b, c);
    hide Count;
    forall k | |a.queue| <= k < |c.queue| ensures !Stirs(c.queue[k].act) {
      if k < |b.queue| {
        assert c.queue[k] == b.queue[k];
      }
    }
  }

  /** Nothing new comes or goes, or is greeted. */
  ghost predicate Quiet(w: World, w': World) {
    forall k :: |w.queue| <= k < |w'.queue| ==> !Stirs(w'.queue[k].act)
  }

  predicate Stirs(act: Action) {
    act.Join? || act.ChurnCheck? || act.Handshake?
  }

  predicate SameHoldings(n: Node, n': Node) {
    && n'.seed == n.seed && n'.have == n.have && n'.online == n.online && n'.conns == n.conns
    && n'.bytesUp == n.bytesUp && n'.bytesDown == n.bytesDown
  }

  lemma {:induction false} SettledTransitive(a: World, b: World, c: World)
    requires Settled(a, b) && Settled(b, c)
    ensures Settled(a, c)
  {
    ExtendsTransitive(a, b, c);
    hide Count;
    forall i | 0 <= i < |a.nodes| ensures SameHoldings(a.nodes[i], c.nodes[i]) {
      assert SameHoldings(a.nodes[i], b.nodes[i]);
    }
  }

  lemma {:induction false} ActStaysOk(nodes: seq<Node>, conns: seq<Conn>, nodes': seq<Node>, conns': seq<Conn>, act: Action)
    requires ActOk(nodes, conns, act)
    requires |nodes'| >= |nodes| && |conns'| >= |conns|
    requires forall c :: 0 <= c < |conns| ==> conns'[c].nodes == conns[c].nodes
    requires forall i :: 0 <= i < |nodes| ==> nodes[i].have <= nodes'[i].have
    ensures ActOk(nodes', conns', act)
  {
    if act.Serve? || act.Deliver? || act.HaveArrives? {
      var i := conns[act.conn].nodes[1 - act.side];
      assert nodes[i].have <= nodes'[i].have;
    }
  }

  lemma {:induction false} QueueStaysOk(nodes: seq<Node>, conns: seq<Conn>, nodes': seq<Node>, conns': seq<Conn>, queue: seq<Event>, now: int)
    requires QueueOk(nodes, conns, queue, now)
    requires |nodes'| >= |nodes| && |conns'| >= |conns|
    requires forall c :: 0 <= c < |conns| ==> conns'[c].nodes == conns[c].nodes
    requires forall i :: 0 <= i < |nodes| ==> nodes[i].have <= nodes'[i].have
    ensures QueueOk(nodes', conns', queue, now)
  {
    hide ActOk;
    forall k | 0 <= k < |queue| ensures ActOk(nodes', conns', queue[k].act) {
      ActStaysOk(nodes, conns, nodes', conns', queue[k].act);
    }
  }

  /** Scheduling. */
  function Scheduled(w: World, delay: int, act: Action): (w': World) {
    w.(queue := w.queue + [Event(w.now + delay, w.seqNo + 1, act)], seqNo := w.seqNo + 1)
  }

  /** Haves and unchokes take a latency; requests and blocks go over a connection whose handshake has landed. */
  predicate MayFollow(w: World, delay: int, act: Action) {
    && delay >= 0
    && (act.HaveArrives? || act.Unchoked? ==> delay >= w.latency)
    && (act.Tick? ==> delay >= w.tick)
    && (act.Handshake? ==> delay <= w.latency)
    && (act.Serve? || act.Deliver? ==> Seen(w.conns, act.conn, act.side))
  }

  lemma {:induction false} OneAppended(w: World, delay: int, act: Action)
    requires MayFollow(w, delay, act)
    ensures Appended(w, Scheduled(w, delay, act))
  {
    hide Seen;
  }

  lemma {:induction false} ScheduledKeeps(lengths: seq<nat>, w: World, delay: int, act: Action)
    requires Inv(lengths, w) && delay >= 0 && ActOk(w.nodes, w.conns, act)
    requires act.Serve? || act.Deliver? ==> Count(w.queue, Transfer(act.conn, act.side)) < OutstandingOf(w.conns, act.conn, act.side)
    ensures Inv(lengths, Scheduled(w, delay, act))
    ensures delay > 0 && MayFollow(w, delay, act) ==> Extends(w, Scheduled(w, delay, act))
    ensures forall what :: Count(Scheduled(w, delay, act).queue, what) == Count(w.queue, what)
                           + if Matches(Event(w.now + delay, w.seqNo + 1, act), what) then 1 else 0
  {
    hide ActOk, NodesOk, ConnsOk, LinksOk, OriginOk, Count, Appended, ViewOf;
    var e := Event(w.now + delay, w.seqNo + 1, act);
    if MayFollow(w, delay, act) {
      OneAppended(w, delay, act);
    }
    forall what ensures Count(w.queue + [e], what) == Count(w.queue, what) + if Matches(e, what) then 1 else 0 {
      CountAppend(w.queue, e, what);
    }
  }

  /** A change to one node that leaves its links, its bytes and its progress alone. */
  ghost predicate SameStanding(n: Node, n': Node) {
    && n'.id == n.id && n'.seed == n.seed && n'.have == n.have && n'.online == n.online && n'.conns == n.conns
    && n'.completedAt == n.completedAt && n'.bytesUp == n.bytesUp && n'.bytesDown == n.bytesDown
  }

  lemma {:induction false} LinksStay(nodes: seq<Node>, conns: seq<Conn>, nodes': seq<Node>, conns': seq<Conn>)
    requires LinksOk(nodes, conns) && |nodes'| == |nodes| && |conns'| >= |conns|
    requires forall c :: 0 <= c < |conns| ==> conns'[c].nodes == conns[c].nodes
    requires forall i :: 0 <= i < |nodes| ==> nodes'[i].conns == nodes[i].conns && nodes'[i].online == nodes[i].online
    ensures LinksOk(nodes', conns')
  {
    forall i, p | 0 <= i < |nodes'| && p in nodes'[i].conns ensures LinkOk(nodes', conns', i, p) {
      assert LinkOk(nodes, conns, i, p);
    }
  }

  lemma {:induction false} ConnsStay(nodes: seq<Node>, nodes': seq<Node>, conns: seq<Conn>)
    requires ConnsOk(nodes, conns) && |nodes'| >= |nodes|
    requires forall i :: 0 <= i < |nodes| ==> nodes[i].have <= nodes'[i].have
    ensures ConnsOk(nodes', conns)
  {
    forall c | 0 <= c < |conns| ensures ConnOk(nodes', conns[c]) {
      var k := conns[c];
      assert ConnOk(nodes, k);
      assert nodes[k.nodes[0]].have <= nodes'[k.nodes[0]].have;
      assert nodes[k.nodes[1]].have <= nodes'[k.nodes[1]].have;
    }
  }

  lemma {:induction false} NodeReplaced(lengths: seq<nat>, w: World, i: int, n: Node)
    requires Inv(lengths, w) && 0 <= i < |w.nodes| && NodeOk(lengths, n) && SameStanding(w.nodes[i], n)
    ensures var w' := w.(nodes := w.nodes[i := n]); Inv(lengths, w') && Extends(w, w')
  {
    hide NodeOk, ConnsOk, LinksOk, QueueOk, FlowOk, Count, Balance, Unfinished;
    var nodes' := w.nodes[i := n];
    LinksStay(w.nodes, w.conns, nodes', w.conns);
    ConnsStay(w.nodes, nodes', w.conns);
    QueueStaysOk(w.nodes, w.conns, nodes', w.conns, w.queue, w.now);
    TotalsAfter(w.nodes, i, n);
    OriginStays(w.nodes, i, n);
  }

  lemma {:induction false} OriginStays(nodes: seq<Node>, i: int, n: Node)
    requires OriginOk(nodes) && 0 <= i < |nodes| && n.seed == nodes[i].seed
    requires forall p :: p in n.have ==> exists j :: 0 <= j < |nodes| && p in nodes[j].have
    ensures OriginOk(nodes[i := n])
  {
    var nodes' := nodes[i := n];
    if forall j :: 0 <= j < |nodes'| ==> !nodes'[j].seed {
      forall j | 0 <= j < |nodes| ensures !nodes[j].seed {
        assert !nodes'[j].seed;
      }
      if n.have != {} {
        var p := SomeMember(n.have);
      }
      assert n.have == {};
    }
  }

  /** A change to one side of one connection. */
  lemma {:induction false} EndReplaced(lengths: seq<nat>, w: World, c: int, side: int, e: End)
    requires Inv(lengths, w) && IsSide(w.conns, c, side) && |w.conns[c].ends| == 2
    requires Count(w.queue, Transfer(c, side)) <= e.outstanding <= PIPELINE_CAP
    requires e.view.Some? ==> e.view.value <= HaveOf(w.nodes, w.conns[c].nodes[1 - side])
    requires ViewGrows(w.conns[c].ends[side].view, e.view)
    ensures var w' := w.(conns := w.conns[c := w.conns[c].(ends := w.conns[c].ends[side := e])]);
            Inv(lengths, w') && Extends(w, w')
  {
    hide NodesOk, LinksOk, QueueOk, Count, OriginOk;
    var conns' := w.conns[c := w.conns[c].(ends := w.conns[c].ends[side := e])];
    assert ConnOk(w.nodes, w.conns[c]);
    LinksStay(w.nodes, w.conns, w.nodes, conns');
    QueueStaysOk(w.nodes, w.conns, w.nodes, conns', w.queue, w.now);
    forall d, s ensures Count(w.queue, Transfer(d, s)) <= OutstandingOf(conns', d, s) {
      assert Count(w.queue, Transfer(d, s)) <= OutstandingOf(w.conns, d, s);
    }
  }

  function WithEnd(w: World, c: int, side: int, e: End): (w': World)
    requires 0 <= c < |w.conns| && 0 <= side < |w.conns[c].ends|
    ensures w'.nodes == w.nodes
  {
    w.(conns := w.conns[c := w.conns[c].(ends := w.conns[c].ends[side := e])])
  }

  /** indexOf: the side of a connection that node i is on, or -1. */
  function IndexOf(k: Conn, i: int): (side: int) {
    if |k.nodes| == 2 && k.nodes[0] == i then 0 else if |k.nodes| == 2 && k.nodes[1] == i then 1 else -1
  }

  /** An action is scheduled for a moment. */
  ghost predicate Planned(queue: seq<Event>, at: int, act: Action) {
    exists e :: e in queue && e.at == at && e.act == act
  }

  lemma {:induction false} NowPlanned(queue: seq<Event>, queue': seq<Event>)
    requires |queue'| == |queue| + 1 && queue'[..|queue|] == queue
    ensures Planned(queue', queue'[|queue|].at, queue'[|queue|].act)
    ensures forall at, act :: Planned(queue, at, act) ==> Planned(queue', at, act)
  {
    assert queue'[|queue|] in queue';
    forall at, act | Planned(queue, at, act) ensures Planned(queue', at, act) {
      var e :| e in queue && e.at == at && e.act == act;
      assert e in queue'[..|queue|];
      assert e in queue';
    }
  }

  // ---------- links ----------

  /** Node n is linked to p over a connection between the two. */
  ghost predicate IsLink(w: World, n: int, p: int) {
    && 0 <= n < |w.nodes| && 0 <= p < |w.nodes| && p in w.nodes[n].conns && 0 <= w.nodes[n].conns[p] < |w.conns| &&
    var k := w.conns[w.nodes[n].conns[p]];
    0 <= IndexOf(k, n) < 2 && |k.ends| == 2 && k.nodes[1 - IndexOf(k, n)] == p
  }

  ghost predicate AreLinks(w: World, n: int, ids: seq<int>) {
    && (forall k :: 0 <= k < |ids| ==> IsLink(w, n, ids[k]))
    && (forall k, l :: 0 <= k < l < |ids| ==> ids[k] < ids[l])
  }

  lemma {:induction false} LinkBounds(w: World, n: int, p: int)
    requires IsLink(w, n, p)
    ensures 0 <= n < |w.nodes| && 0 <= p < |w.nodes| && p in w.nodes[n].conns && 0 <= w.nodes[n].conns[p] < |w.conns|
    ensures var k := w.conns[w.nodes[n].conns[p]]; 0 <= IndexOf(k, n) < 2 && |k.ends| == 2
  {
  }

  lemma {:induction false} LinkAt(w: World, n: int, ids: seq<int>, k: nat)
    requires AreLinks(w, n, ids) && k < |ids|
    ensures IsLink(w, n, ids[k])
  {
  }

  const NO_END := End(None, false, false, 0, 0)

  function Linked(w: World, a: int, b: int): (w': World)
    requires 0 <= a < |w.nodes| && 0 <= b < |w.nodes| && a != b
  {
    var c := |w.conns|;
    w.(conns := w.conns + [Conn([a, b], [NO_END, NO_END])],
       nodes := w.nodes[a := w.nodes[a].(conns := w.nodes[a].conns[b := c])][b := w.nodes[b].(conns := w.nodes[b].conns[a := c])])
  }

  /** Two nodes that differ at most in their links. */
  ghost predicate SameButLinks(n: Node, n': Node) {
    n' == n.(conns := n'.conns)
  }

  lemma {:induction false} TwoNodesReplaced(nodes: seq<Node>, a: int, b: int, m: Node, n: Node)
    requires 0 <= a < |nodes| && 0 <= b < |nodes| && a != b
    ensures Balance(nodes[a := m][b := n]) == Balance(nodes) - (nodes[a].bytesUp - nodes[a].bytesDown) + (m.bytesUp - m.bytesDown)
                                              - (nodes[b].bytesUp - nodes[b].bytesDown) + (n.bytesUp - n.bytesDown)
    ensures m.seed == nodes[a].seed && m.completedAt == nodes[a].completedAt && n.seed == nodes[b].seed && n.completedAt == nodes[b].completedAt ==>
              Unfinished(nodes[a := m][b := n]) == Unfinished(nodes)
  {
    TotalsAfter(nodes, a, m);
    TotalsAfter(nodes[a := m], b, n);
  }

  /** Two nodes changed in their links, rates of transfer or sightings only: everything but the links survives. */
  lemma {:induction false} StandingStays(lengths: seq<nat>, w: World, w': World, a: int, b: int, m: Node, n: Node)
    requires Inv(lengths, w) && 0 <= a < |w.nodes| && 0 <= b < |w.nodes| && a != b
    requires w' == w.(nodes := w.nodes[a := m][b := n])
    requires NodeOk(lengths, m) && NodeOk(lengths, n)
    requires m.id == w.nodes[a].id && n.id == w.nodes[b].id
    requires m.seed == w.nodes[a].seed && m.have == w.nodes[a].have && m.completedAt == w.nodes[a].completedAt
    requires n.seed == w.nodes[b].seed && n.have == w.nodes[b].have && n.completedAt == w.nodes[b].completedAt
    requires (m.bytesUp - m.bytesDown) + (n.bytesUp - n.bytesDown)
          == (w.nodes[a].bytesUp - w.nodes[a].bytesDown) + (w.nodes[b].bytesUp - w.nodes[b].bytesDown)
    requires LinksOk(w'.nodes, w'.conns)
    ensures Inv(lengths, w') && Extends(w, w')
  {
    hide NodeOk, ConnsOk, LinksOk, QueueOk, FlowOk, Count, Balance, Unfinished;
    ConnsStay(w.nodes, w'.nodes, w.conns);
    QueueStaysOk(w.nodes, w.conns, w'.nodes, w.conns, w.queue, w.now);
    TwoNodesReplaced(w.nodes, a, b, m, n);
    OriginStays(w.nodes, a, m);
    OriginStays(w.nodes[a := m], b, n);
  }

  lemma {:induction false} ConnAdded(lengths: seq<nat>, w: World, a: int, b: int)
    requires Inv(lengths, w) && 0 <= a < |w.nodes| && 0 <= b < |w.nodes| && a != b
    ensures var w' := w.(conns := w.conns + [Conn([a, b], [NO_END, NO_END])]); Inv(lengths, w') && Extends(w, w')
  {
    hide NodesOk, LinksOk, QueueOk, Count, OriginOk;
    var conns' := w.conns + [Conn([a, b], [NO_END, NO_END])];
    LinksStay(w.nodes, w.conns, w.nodes, conns');
    QueueStaysOk(w.nodes, w.conns, w.nodes, conns', w.queue, w.now);
    forall d, s ensures Count(w.queue, Transfer(d, s)) <= OutstandingOf(conns', d, s) {
      assert Count(w.queue, Transfer(d, s)) <= OutstandingOf(w.conns, d, s);
    }
  }

  lemma {:induction false} LinkedKeeps(lengths: seq<nat>, w: World, a: int, b: int)
    requires Inv(lengths, w) && 0 <= a < |w.nodes| && 0 <= b < |w.nodes| && a != b && w.nodes[a].online && w.nodes[b].online
    ensures Inv(lengths, Linked(w, a, b)) && Extends(w, Linked(w, a, b))
  {
    hide NodeOk, ConnsOk, QueueOk, FlowOk, Count, Balance, Unfinished, OriginOk;
    var w1, w' := w.(conns := w.conns + [Conn([a, b], [NO_END, NO_END])]), Linked(w, a, b);
    ConnAdded(lengths, w, a, b);
    forall i, p | 0 <= i < |w'.nodes| && p in w'.nodes[i].conns ensures LinkOk(w'.nodes, w'.conns, i, p) {
      if !(i == a && p == b) && !(i == b && p == a) {
        assert LinkOk(w.nodes, w.conns, i, p);
      }
    }
    assert NodeOk(lengths, w'.nodes[a]) && NodeOk(lengths, w'.nodes[b]) by {
      assert NodeOk(lengths, w.nodes[a]) && NodeOk(lengths, w.nodes[b]);
      OnlyLinksChange(lengths, w.nodes[a], w'.nodes[a]);
      OnlyLinksChange(lengths, w.nodes[b], w'.nodes[b]);
    }
    StandingStays(lengths, w1, w', a, b, w'.nodes[a], w'.nodes[b]);
    ExtendsTransitive(w, w1, w');
  }

  lemma {:induction false} OnlyLinksChange(lengths: seq<nat>, n: Node, n': Node)
    requires NodeOk(lengths, n) && SameButLinks(n, n')
    ensures NodeOk(lengths, n')
  {
  }

  /** A link taken down at both ends, with each end's view of the other taken out of its counts. */
  function Unlinked(w: World, a: int, b: int, pickA: State, pickB: State): (w': World)
    requires 0 <= a < |w.nodes| && 0 <= b < |w.nodes| && a != b
  {
    w.(nodes := w.nodes[a := w.nodes[a].(conns := w.nodes[a].conns - {b}, pick := pickA)]
                       [b := w.nodes[b].(conns := w.nodes[b].conns - {a}, pick := pickB)])
  }

  lemma {:induction false} UnlinkedKeeps(lengths: seq<nat>, w: World, a: int, b: int, pickA: State, pickB: State)
    requires Inv(lengths, w) && 0 <= a < |w.nodes| && 0 <= b < |w.nodes| && a != b
    requires NodeOk(lengths, w.nodes[a].(pick := pickA)) && NodeOk(lengths, w.nodes[b].(pick := pickB))
    ensures Inv(lengths, Unlinked(w, a, b, pickA, pickB)) && Extends(w, Unlinked(w, a, b, pickA, pickB))
  {
    hide NodeOk, ConnsOk, QueueOk, FlowOk, Count, Balance, Unfinished, OriginOk;
    var w' := Unlinked(w, a, b, pickA, pickB);
    forall i, p | 0 <= i < |w'.nodes| && p in w'.nodes[i].conns ensures LinkOk(w'.nodes, w'.conns, i, p) {
      assert LinkOk(w.nodes, w.conns, i, p);
    }
    OnlyLinksChange(lengths, w.nodes[a].(pick := pickA), w'.nodes[a]);
    OnlyLinksChange(lengths, w.nodes[b].(pick := pickB), w'.nodes[b]);
    StandingStays(lengths, w, w', a, b, w'.nodes[a], w'.nodes[b]);
  }

  lemma {:induction false} OnlineNodeOk(lengths: seq<nat>, nodes: seq<Node>, i: int, online: bool, joinedAt: int)
    requires NodesOk(lengths, nodes) && 0 <= i < |nodes|
    ensures NodesOk(lengths, nodes[i := nodes[i].(online := online, joinedAt := joinedAt)])
  {
    hide Valid, HasAll;
    assert NodeOk(lengths, nodes[i]);
  }

  lemma {:induction false} OnlineLinks(nodes: seq<Node>, conns: seq<Conn>, i: int, online: bool, joinedAt: int)
    requires LinksOk(nodes, conns) && 0 <= i < |nodes| && (!online ==> nodes[i].conns == map[])
    ensures LinksOk(nodes[i := nodes[i].(online := online, joinedAt := joinedAt)], conns)
  {
    var nodes' := nodes[i := nodes[i].(online := online, joinedAt := joinedAt)];
    forall j, p | 0 <= j < |nodes'| && p in nodes'[j].conns ensures LinkOk(nodes', conns, j, p) {
      assert LinkOk(nodes, conns, j, p);
    }
  }

  lemma {:induction false} OnlyNodesChange(w: World, nodes: seq<Node>, pending: int)
    requires |nodes| == |w.nodes| && forall i :: 0 <= i < |nodes| ==> w.nodes[i].have <= nodes[i].have && nodes[i].id == w.nodes[i].id
    ensures Extends(w, w.(nodes := nodes, pending := pending))
  {
    hide Count;
  }

  /** Going online is always possible; going offline once every link is down. */
  lemma {:induction false} OnlineChanged(lengths: seq<nat>, w: World, i: int, online: bool, joinedAt: int)
    requires Inv(lengths, w) && 0 <= i < |w.nodes| && (!online ==> w.nodes[i].conns == map[])
    ensures var w' := w.(nodes := w.nodes[i := w.nodes[i].(online := online, joinedAt := joinedAt)]);
            Inv(lengths, w') && Extends(w, w')
  {
    hide ConnsOk, LinksOk, QueueOk, FlowOk, Count, Balance, Unfinished, Extends;
    var w' := w.(nodes := w.nodes[i := w.nodes[i].(online := online, joinedAt := joinedAt)]);
    OnlyNodesChange(w, w'.nodes, w.pending);
    OnlineNodeOk(lengths, w.nodes, i, online, joinedAt);
    OnlineLinks(w.nodes, w.conns, i, online, joinedAt);
    hide NodeOk;
    ConnsStay(w.nodes, w'.nodes, w.conns);
    QueueStaysOk(w.nodes, w.conns, w'.nodes, w.conns, w.queue, w.now);
    TotalsAfter(w.nodes, i, w'.nodes[i]);
    OriginStays(w.nodes, i, w'.nodes[i]);
  }

  // ---------- a delivered block ----------

  /** Bytes move from one node to another. */
  function Moved(w: World, from: int, to: int, length: int): (w': World)
    requires 0 <= from < |w.nodes| && 0 <= to < |w.nodes| && from != to
  {
    w.(nodes := w.nodes[to := w.nodes[to].(bytesDown := w.nodes[to].bytesDown + length)]
                       [from := w.nodes[from].(bytesUp := w.nodes[from].bytesUp + length)])
  }

  /** A side's view is a true copy. */
  ghost predicate SeesAll(w: World, c: int, m: int) {
    0 <= c < |w.conns| && 0 <= m < 2 && ConnOk(w.nodes, w.conns[c]) &&
    ViewOf(w.conns, c, m) == Some(w.nodes[w.conns[c].nodes[1 - m]].have)
  }

  /** Views that were complete stay so while no piece arrives. */
  lemma {:induction false} ViewStays(w: World, w': World, c: int, m: int)
    requires Settled(w, w') && SeesAll(w, c, m) && ConnOk(w'.nodes, w'.conns[c])
    ensures SeesAll(w', c, m)
  {
    hide Count;
    assert ViewGrows(ViewOf(w.conns, c, m), ViewOf(w'.conns, c, m));
    assert SameHoldings(w.nodes[w.conns[c].nodes[1 - m]], w'.nodes[w.conns[c].nodes[1 - m]]);
    assert EndOk(w'.nodes, w'.conns[c], m);
    var v := w'.conns[c].ends[m].view;
    assert v.Some? && v.value == w'.nodes[w'.conns[c].nodes[1 - m]].have;
  }

  lemma {:induction false} MovedKeeps(lengths: seq<nat>, w: World, from: int, to: int, length: int)
    requires Inv(lengths, w) && 0 <= from < |w.nodes| && 0 <= to < |w.nodes| && from != to
    ensures Inv(lengths, Moved(w, from, to, length)) && Extends(w, Moved(w, from, to, length))
  {
    hide ConnsOk, QueueOk, FlowOk, Count, Balance, Unfinished, OriginOk, LinksOk;
    var w' := Moved(w, from, to, length);
    assert NodeOk(lengths, w.nodes[from]) && NodeOk(lengths, w.nodes[to]);
    LinksStay(w.nodes, w.conns, w'.nodes, w.conns);
    hide Valid, HasAll;
    StandingStays(lengths, w, w', to, from, w'.nodes[to], w'.nodes[from]);
  }

  /** A picker whose every piece is held has nothing in progress. */
  lemma {:induction false} FinishedHasNothingActive(s: State)
    requires Valid(s)
    ensures HasAll(s.cfg.lengths, s.have) ==> s.active == map[]
    ensures s.priority.None? ==> (Finished(s) <==> HasAll(s.cfg.lengths, s.have))
  {
    hide Sound;
    forall i | i in s.active ensures !HasAll(s.cfg.lengths, s.have) {
      assert PieceSound(s, i, s.active[i]);
    }
    if HasAll(s.cfg.lengths, s.have) {
      assert s.active.Keys == {};
    }
    if s.priority.None? {
      forall i | 0 <= i < |s.cfg.lengths| ensures i in Missing(s) <==> i !in s.have {
      }
    }
  }

  /** A node finishes a piece that some node has. */
  lemma {:induction false} PieceGained(lengths: seq<nat>, w: World, i: int, p: int, index: int, pick: State, completedAt: Option<int>)
    requires Inv(lengths, w) && 0 <= i < |w.nodes| && 0 <= p < |w.nodes| && index in w.nodes[p].have
    requires Valid(pick) && pick.cfg.lengths == lengths && pick.priority == None && pick.have == w.nodes[i].have + {index}
    requires !HasAll(lengths, w.nodes[i].have)
    requires completedAt.Some? <==> HasAll(lengths, pick.have)
    ensures var n := w.nodes[i].(have := pick.have, pick := pick, completedAt := completedAt);
            var w' := w.(nodes := w.nodes[i := n], pending := w.pending - if completedAt.Some? then 1 else 0);
            Inv(lengths, w') && Extends(w, w')
  {
    hide ConnsOk, LinksOk, QueueOk, FlowOk, Count, Balance, Unfinished, Valid, HasAll, Extends;
    var n := w.nodes[i].(have := pick.have, pick := pick, completedAt := completedAt);
    var nodes' := w.nodes[i := n];
    OnlyNodesChange(w, nodes', w.pending - if completedAt.Some? then 1 else 0);
    assert NodeOk(lengths, w.nodes[i]);
    LinksStay(w.nodes, w.conns, nodes', w.conns);
    ConnsStay(w.nodes, nodes', w.conns);
    QueueStaysOk(w.nodes, w.conns, nodes', w.conns, w.queue, w.now);
    TotalsAfter(w.nodes, i, n);
    OriginStays(w.nodes, i, n);
  }

  // ---------- the clock, and new nodes ----------

  /** The earliest event is taken out and its time becomes the present. */
  lemma {:induction false} PoppedKeeps(lengths: seq<nat>, w: World, k: int)
    requires Inv(lengths, w) && 0 <= k < |w.queue| && forall j :: 0 <= j < |w.queue| ==> w.queue[k].at <= w.queue[j].at
    ensures var e := w.queue[k];
            var w' := w.(queue := w.queue[..k] + w.queue[k + 1..], now := e.at);
            && Inv(lengths, w') && ActOk(w'.nodes, w'.conns, e.act) && w.now <= w'.now
            && (w'.now == w.now ==> Count(w'.queue, Due(w.now)) < Count(w.queue, Due(w.now)))
            && (e.act.Serve? || e.act.Deliver? ==>
                 Count(w'.queue, Transfer(e.act.conn, e.act.side)) < OutstandingOf(w'.conns, e.act.conn, e.act.side))
  {
    hide NodesOk, ConnsOk, LinksOk, OriginOk, Count, ActOk;
    var e, queue' := w.queue[k], w.queue[..k] + w.queue[k + 1..];
    forall what ensures Count(w.queue, what) == Count(queue', what) + if Matches(e, what) then 1 else 0 {
      CountRemove(w.queue, k, what);
    }
    forall j | 0 <= j < |queue'| ensures queue'[j].at >= e.at && ActOk(w.nodes, w.conns, queue'[j].act) {
      assert queue'[j] == w.queue[if j < k then j else j + 1];
    }
    forall c, side ensures Count(queue', Transfer(c, side)) <= OutstandingOf(w.conns, c, side) {
      assert Count(w.queue, Transfer(c, side)) <= OutstandingOf(w.conns, c, side);
    }
    if e.act.Serve? || e.act.Deliver? {
      assert Count(w.queue, Transfer(e.act.conn, e.act.side)) <= OutstandingOf(w.conns, e.act.conn, e.act.side);
    }
  }

  lemma {:induction false} NodeAdded(lengths: seq<nat>, w: World, n: Node)
    requires Inv(lengths, w) && NodeOk(lengths, n) && n.conns == map[] && n.bytesUp == n.bytesDown == 0 && (!n.seed ==> n.have == {})
    requires !n.seed ==> n.completedAt.None?
    ensures Inv(lengths, w.(nodes := w.nodes + [n], pending := w.pending + if n.seed then 0 else 1))
  {
    hide NodeOk, ConnsOk, QueueOk, FlowOk, Count, Balance, Unfinished;
    var nodes' := w.nodes + [n];
    forall i, p | 0 <= i < |nodes'| && p in nodes'[i].conns ensures LinkOk(nodes', w.conns, i, p) {
      assert LinkOk(w.nodes, w.conns, i, p);
    }
    ConnsStay(w.nodes, nodes', w.conns);
    QueueStaysOk(w.nodes, w.conns, nodes', w.conns, w.queue, w.now);
    TotalsAppend(w.nodes, n);
    if forall i :: 0 <= i < |nodes'| ==> !nodes'[i].seed {
      assert forall i :: 0 <= i < |w.nodes| ==> nodes'[i] == w.nodes[i];
      assert !nodes'[|w.nodes|].seed;
    }
  }

  // ---------- what the invariant says of one connection ----------

  /** One side of a connection: a sound node, fewer in flight than outstanding, and a view that claims no piece the far side lacks. */
  ghost predicate SideOk(lengths: seq<nat>, w: World, c: int, side: int) {
    && IsSide(w.conns, c, side) && ConnOk(w.nodes, w.conns[c])
    && NodeOk(lengths, w.nodes[w.conns[c].nodes[side]])
    && 0 <= Count(w.queue, Transfer(c, side)) <= w.conns[c].ends[side].outstanding <= PIPELINE_CAP
    && ViewGrows(ViewOf(w.conns, c, side), Some(w.nodes[w.conns[c].nodes[1 - side]].have))
  }

  lemma {:induction false} ConnFacts(lengths: seq<nat>, w: World, c: int)
    requires Inv(lengths, w) && 0 <= c < |w.conns|
    ensures ConnOk(w.nodes, w.conns[c])
    ensures forall side {:trigger w.conns[c].nodes[side]} {:trigger w.conns[c].ends[side]} {:trigger IsSide(w.conns, c, side)} ::
              0 <= side < 2 ==> SideOk(lengths, w, c, side)
  {
    hide Count, NodeOk;
    assert ConnOk(w.nodes, w.conns[c]);
    forall side | 0 <= side < 2 ensures SideOk(lengths, w, c, side) {
      assert Count(w.queue, Transfer(c, side)) <= OutstandingOf(w.conns, c, side);
    }
  }

  lemma {:induction false} PickedKeepsNode(lengths: seq<nat>, n: Node, peer: set<int>, max: int, now: int, pick: State, out: seq<Request>)
    requires NodeOk(lengths, n) && Picked(n.pick, peer, max, now, pick, out)
    ensures NodeOk(lengths, n.(pick := pick))
    ensures max >= 0 ==> |out| <= max
    ensures forall r :: r in out ==> r.index in peer
  {
    hide Valid, HasAll, ForBlock, AskedFor, StartedBest, Drained, IsNext, Finished, InEndgame;
    PickedIsValid(n.pick, peer, max, now, pick, out);
  }

  lemma {:induction false} PickedIsValid(s0: State, peer: set<int>, max: int, now: int, s: State, out: seq<Request>)
    requires Picked(s0, peer, max, now, s, out)
    ensures Valid(s) && s == s0.(active := s.active)
  {
    hide ForBlock, AskedFor, StartedBest, Drained, IsNext, Finished, InEndgame, PieceSound;
  }

  lemma {:induction false} AvailChanges(lengths: seq<nat>, n: Node, avail: seq<nat>)
    requires NodeOk(lengths, n) && |avail| == |n.pick.avail|
    ensures NodeOk(lengths, n.(pick := n.pick.(avail := avail)))
  {
    hide Sound;
    var s' := n.pick.(avail := avail);
    forall i | i in s'.active ensures PieceSound(s', i, s'.active[i]) {
      assert PieceSound(n.pick, i, n.pick.active[i]);
    }
  }

  lemma {:induction false} ReceivedKeepsNode(lengths: seq<nat>, n: Node, index: int, begin: int, length: int)
    requires NodeOk(lengths, n)
    ensures NodeOk(lengths, n.(pick := Received(n.pick, index, begin, length).0))
    ensures Received(n.pick, index, begin, length).2 ==> !HasAll(lengths, n.have) && 0 <= index < |lengths|
    ensures Received(n.pick, index, begin, length).1 ==> Received(n.pick, index, begin, length).2
  {
    hide Valid, HasAll, NoNewWork, Received, BlockRequest;
    ReceivedCountsOnce(n.pick, index, begin, length);
    FinishedHasNothingActive(n.pick);
    if index in n.pick.active {
      ActiveIsPiece(n.pick, index);
    }
  }

  lemma {:induction false} ActiveIsPiece(s: State, index: int)
    requires Valid(s) && index in s.active
    ensures IsPiece(s, index)
  {
    assert PieceSound(s, index, s.active[index]);
  }
}
