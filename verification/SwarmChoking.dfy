/** The real choker at work on a simulated node's links: connEnd of internal/simulator/connection.go as a choker's Peer. */
module SwarmChoking {
  import opened Bytes
  import Choking
  import opened SwarmState

  /** A link as the choker sees it: the far node's name, whether it is interested, what it has sent, and whether it is choked. */
  datatype Link = Link(id: string, interested: bool, bytes: int, choking: bool)

  ghost predicate Named(links: seq<Link>) {
    && (forall k :: 0 <= k < |links| ==> links[k].id != "")
    && (forall k, l :: 0 <= k < l < |links| ==> links[k].id != links[l].id)
  }

  function Trues(flags: seq<bool>): (n: nat) {
    if flags == [] then 0 else Trues(flags[..|flags| - 1]) + if flags[|flags| - 1] then 1 else 0
  }

  function Interests(links: seq<Link>): (flags: seq<bool>) {
    seq(|links|, k requires 0 <= k < |links| => links[k].interested)
  }

  function RateOf(memory: Choking.Memory, link: Link): (rate: int) {
    Choking.Rate(memory.lastBytes, link.id, link.bytes)
  }

  /** A run of the choker: which links are unchoked, and what it remembers. */
  ghost predicate Judged(links: seq<Link>, memory: Choking.Memory, slots: int, rotation: int, now: int,
                         verdict: seq<bool>, memory': Choking.Memory)
  {
    && |verdict| == |links|
    && SlotsUsed(links, slots, verdict) && FastestServed(links, memory, verdict, memory'.optimistic)
    && KeepsTurn(links, memory, rotation, now, verdict, memory') && Recorded(links, memory')
  }

  /** Every slot is used, and only on the interested. */
  ghost predicate SlotsUsed(links: seq<Link>, slots: int, verdict: seq<bool>) {
    |verdict| == |links| && Trues(verdict) == Min(slots, Trues(Interests(links))) && forall k :: 0 <= k < |links| && verdict[k] ==> links[k].interested
  }

  /** But for the optimistic peer, which has a slot, nobody slower than a choked peer is unchoked. */
  ghost predicate FastestServed(links: seq<Link>, memory: Choking.Memory, verdict: seq<bool>, optimistic: string)
    requires |verdict| == |links|
  {
    && (forall k, l :: 0 <= k < |links| && 0 <= l < |links| && verdict[k] && links[k].id != optimistic && links[l].interested && !verdict[l] ==>
                         RateOf(memory, links[k]) >= RateOf(memory, links[l]))
    && (optimistic != "" ==> exists k :: 0 <= k < |links| && verdict[k] && links[k].id == optimistic)
  }

  ghost predicate Recorded(links: seq<Link>, memory: Choking.Memory) {
    forall k :: 0 <= k < |links| ==> links[k].id in memory.lastBytes && memory.lastBytes[links[k].id] == links[k].bytes
  }

  /** Until its turn is over, the optimistic peer gives way only by having earned a slot, or by losing interest. */
  ghost predicate KeepsTurn(links: seq<Link>, memory: Choking.Memory, rotation: int, now: int, verdict: seq<bool>, memory': Choking.Memory)
    requires |verdict| == |links|
  {
    memory.optimistic != "" && memory.lastRotation.Some? && now - memory.lastRotation.value < rotation && memory'.optimistic != memory.optimistic ==>
      forall k :: 0 <= k < |links| && links[k].id == memory.optimistic && links[k].interested ==>
        verdict[k] && forall l :: 0 <= l < |links| && links[l].interested && !verdict[l] ==> RateOf(memory, links[k]) >= RateOf(memory, links[l])
  }

  /** The order in which the links are told: first the uninterested, then the others, fastest first. */
  ghost predicate InTurn(links: seq<Link>, memory: Choking.Memory, order: seq<nat>) {
    && (forall k :: k in order <==> 0 <= k < |links|)
    && (forall a, b :: 0 <= a < b < |order| && order[a] < |links| && order[b] < |links| ==> Before(memory, links[order[a]], links[order[b]]))
  }

  ghost predicate Before(memory: Choking.Memory, a: Link, b: Link) {
    !a.interested || (b.interested && RateOf(memory, a) >= RateOf(memory, b))
  }

  ghost predicate Mirrors(peers: seq<Choking.Peer>, links: seq<Link>) {
    |peers| == |links| && forall k :: 0 <= k < |peers| ==> Mirror(peers[k], links[k])
  }

  ghost predicate Mirror(peer: Choking.Peer, link: Link) {
    peer.id == link.id && peer.interested == link.interested && peer.bytes == link.bytes
  }

  /** scheduleChoke's call of the choker, on links with names of their own. */
  method Decide(links: seq<Link>, memory: Choking.Memory, slots: int, rotation: int, now: int)
    returns (verdict: seq<bool>, order: seq<nat>, memory': Choking.Memory)
    requires Named(links) && slots >= 1
    ensures Judged(links, memory, slots, rotation, now, verdict, memory') && InTurn(links, memory, order)
  {
    hide Choking.Ranks, Choking.Ranking, Choking.Wastes, Choking.IsKept, Choking.Drawn, Choking.Rate, InTurn, SlotsUsed, FastestServed, KeepsTurn;
    var peers := PeersOver(links);
    ArePeers(peers, links);
    var choker := new Choking.Choker.Resume(slots, rotation, memory);
    var choice: nat := *;
    choker.Run(peers, now, choice);
    memory' := choker.Remembered();
    verdict := Verdicts(peers);
    order := TellInTurn(peers, links, memory);
    SlotsAre(peers, links, slots, verdict);
    FastestAre(peers, links, memory, verdict, memory'.optimistic);
    TurnIs(peers, links, memory, rotation, now, verdict, memory');
  }

  ghost predicate Says(peers: seq<Choking.Peer>, links: seq<Link>, verdict: seq<bool>)
    reads peers
  {
    Mirrors(peers, links) && |verdict| == |peers| && forall k :: 0 <= k < |peers| ==> verdict[k] == !peers[k].choking
  }

  lemma {:induction false} SlotsAre(peers: seq<Choking.Peer>, links: seq<Link>, slots: int, verdict: seq<bool>)
    requires Says(peers, links, verdict) && Choking.DistinctIds(peers) && Choking.Unchoked(peers) <= Choking.Interested(peers)
    requires |Choking.Unchoked(peers)| == Min(slots, |Choking.Interested(peers)|)
    ensures SlotsUsed(links, slots, verdict)
  {
    CountMarked(peers, Interests(links));
    CountMarked(peers, verdict);
    assert Marked(peers, Interests(links)) == Choking.Interested(peers);
    assert Marked(peers, verdict) == Choking.Unchoked(peers);
    forall k | 0 <= k < |links| && verdict[k] ensures links[k].interested {
      assert peers[k] in Choking.Unchoked(peers);
    }
  }

  lemma {:induction false} FastestAre(peers: seq<Choking.Peer>, links: seq<Link>, memory: Choking.Memory, verdict: seq<bool>, optimistic: string)
    requires Says(peers, links, verdict)
    requires forall p, q :: p in Choking.Unchoked(peers) && p.id != optimistic && q in Choking.Interested(peers) && q.choking ==>
               Choking.RateOf(memory.lastBytes, p) >= Choking.RateOf(memory.lastBytes, q)
    requires optimistic != "" ==> exists p :: p in Choking.Interested(peers) && p.id == optimistic && !p.choking
    ensures FastestServed(links, memory, verdict, optimistic)
  {
    hide Choking.Rate;
    forall k, l | 0 <= k < |links| && 0 <= l < |links| && verdict[k] && links[k].id != optimistic && links[l].interested && !verdict[l]
      ensures RateOf(memory, links[k]) >= RateOf(memory, links[l])
    {
      assert peers[k] in Choking.Unchoked(peers) && peers[l] in Choking.Interested(peers);
    }
    if optimistic != "" {
      var p :| p in Choking.Interested(peers) && p.id == optimistic && !p.choking;
      var k :| 0 <= k < |peers| && peers[k] == p;
      assert verdict[k] && links[k].id == optimistic;
    }
  }

  lemma {:induction false} TurnIs(peers: seq<Choking.Peer>, links: seq<Link>, memory: Choking.Memory, rotation: int, now: int,
                                  verdict: seq<bool>, memory': Choking.Memory)
    requires Says(peers, links, verdict)
    requires memory.optimistic != "" && memory.lastRotation.Some? && now - memory.lastRotation.value < rotation && memory'.optimistic != memory.optimistic ==>
               forall p :: p in Choking.Interested(peers) && p.id == memory.optimistic ==>
                 !p.choking && forall q :: q in Choking.Interested(peers) && q.choking ==> Choking.RateOf(memory.lastBytes, p) >= Choking.RateOf(memory.lastBytes, q)
    ensures KeepsTurn(links, memory, rotation, now, verdict, memory')
  {
    hide Choking.Rate;
    ArePeersOf(peers, links, memory);
  }

  method PeersOver(links: seq<Link>) returns (peers: seq<Choking.Peer>)
    ensures Mirrors(peers, links) && forall p :: p in peers ==> fresh(p)
  {
    peers := [];
    for k := 0 to |links|
      invariant |peers| == k && forall j :: 0 <= j < k ==> Mirror(peers[j], links[j]) && fresh(peers[j])
    {
      var peer := new Choking.Peer(links[k].id, links[k].interested, links[k].bytes, links[k].choking);
      peers := peers + [peer];
    }
  }

  method Verdicts(peers: seq<Choking.Peer>) returns (flags: seq<bool>)
    ensures |flags| == |peers| && forall k :: 0 <= k < |peers| ==> flags[k] == !peers[k].choking
  {
    flags := [];
    for k := 0 to |peers|
      invariant |flags| == k && forall j :: 0 <= j < k ==> flags[j] == !peers[j].choking
    {
      flags := flags + [!peers[k].choking];
    }
  }

  method TellInTurn(peers: seq<Choking.Peer>, links: seq<Link>, memory: Choking.Memory) returns (order: seq<nat>)
    requires Mirrors(peers, links) && Named(links)
    requires Choking.Ranks(Choking.Ranking(peers, memory.lastBytes), peers, memory.lastBytes)
    ensures InTurn(links, memory, order)
  {
    hide Choking.Ranking, Choking.Ranks;
    order := [];
    for k := 0 to |links|
      invariant forall j :: j in order <==> 0 <= j < k && !links[j].interested
    {
      if !links[k].interested {
        order := order + [k];
      }
    }
    var ranked := Choking.Ranking(peers, memory.lastBytes);
    var rest: seq<nat> := [];
    for i := 0 to |ranked|
      invariant |rest| == i && forall j :: 0 <= j < i ==> rest[j] < |peers| && peers[rest[j]] == ranked[j].peer
    {
      RankedIsPeer(peers, ranked, memory, i);
      var k := Find(peers, ranked[i].peer);
      rest := rest + [k];
    }
    RestInTurn(peers, links, memory, ranked, order, rest);
    order := order + rest;
  }

  method Find(peers: seq<Choking.Peer>, p: Choking.Peer) returns (k: nat)
    requires p in peers
    ensures k < |peers| && peers[k] == p
  {
    k := 0;
    ghost var i :| 0 <= i < |peers| && peers[i] == p;
    while peers[k] != p
      invariant k <= i
      decreases i - k
    {
      k := k + 1;
    }
  }

  lemma {:induction false} RankedIsPeer(peers: seq<Choking.Peer>, ranked: seq<Choking.Ranked>, memory: Choking.Memory, i: nat)
    requires Choking.Ranks(ranked, peers, memory.lastBytes) && i < |ranked|
    ensures ranked[i].peer in peers && ranked[i].peer.interested && ranked[i].rate == Choking.RateOf(memory.lastBytes, ranked[i].peer)
  {
    assert ranked[i].peer in Choking.PeersOf(ranked);
  }

  lemma {:induction false} RestInTurn(peers: seq<Choking.Peer>, links: seq<Link>, memory: Choking.Memory, ranked: seq<Choking.Ranked>,
                                      first: seq<nat>, rest: seq<nat>)
    requires Mirrors(peers, links) && Choking.Ranks(ranked, peers, memory.lastBytes) && Named(links)
    requires forall j :: j in first <==> 0 <= j < |links| && !links[j].interested
    requires |rest| == |ranked| && forall j :: 0 <= j < |rest| ==> rest[j] < |peers| && peers[rest[j]] == ranked[j].peer
    ensures InTurn(links, memory, first + rest)
  {
    hide Choking.Rate;
    var order := first + rest;
    forall k | 0 <= k < |links| ensures k in order {
      if links[k].interested {
        RankedSomewhere(peers, links, memory, ranked, rest, k);
      }
    }
    forall a, b | 0 <= a < b < |order| ensures order[a] < |links| && order[b] < |links| && Before(memory, links[order[a]], links[order[b]]) {
      assert a < |first| ==> order[a] in first;
      assert b < |first| ==> order[b] in first;
      if a >= |first| {
        RankedIsPeer(peers, ranked, memory, a - |first|);
        RankedIsPeer(peers, ranked, memory, b - |first|);
      }
    }
  }

  lemma {:induction false} RankedSomewhere(peers: seq<Choking.Peer>, links: seq<Link>, memory: Choking.Memory, ranked: seq<Choking.Ranked>,
                                           rest: seq<nat>, k: nat)
    requires Mirrors(peers, links) && Choking.Ranks(ranked, peers, memory.lastBytes) && Named(links)
    requires |rest| == |ranked| && forall j :: 0 <= j < |rest| ==> rest[j] < |peers| && peers[rest[j]] == ranked[j].peer
    requires k < |links| && links[k].interested
    ensures k in rest
  {
    assert peers[k] in Choking.Interested(peers);
    assert peers[k] in Choking.PeersOf(ranked);
    var j :| 0 <= j < |ranked| && ranked[j].peer == peers[k];
    assert links[rest[j]].id == links[k].id;
    assert rest[j] == k;
  }

  /** The peers at the marked places. */
  ghost function Marked(peers: seq<Choking.Peer>, flags: seq<bool>): (ps: set<Choking.Peer>)
    requires |flags| == |peers|
  {
    set k | 0 <= k < |peers| && flags[k] :: peers[k]
  }

  lemma {:induction false} CountMarked(peers: seq<Choking.Peer>, flags: seq<bool>)
    requires |flags| == |peers| && Choking.DistinctIds(peers)
    ensures |Marked(peers, flags)| == Trues(flags)
  {
    if peers != [] {
      var last := |peers| - 1;
      CountMarked(peers[..last], flags[..last]);
      MarkedStep(peers, flags);
    }
  }

  lemma {:induction false} MarkedStep(peers: seq<Choking.Peer>, flags: seq<bool>)
    requires |flags| == |peers| > 0 && Choking.DistinctIds(peers)
    ensures var last := |peers| - 1;
            var less := Marked(peers[..last], flags[..last]);
            peers[last] !in less && Marked(peers, flags) == less + if flags[last] then {peers[last]} else {}
  {
    var last := |peers| - 1;
    var less, all := Marked(peers[..last], flags[..last]), Marked(peers, flags);
    forall p | p in less ensures p in all && p != peers[last] {
      var k :| 0 <= k < last && flags[..last][k] && peers[..last][k] == p;
      assert flags[k] && peers[k] == p;
    }
    forall p | p in all ensures p in less || (flags[last] && p == peers[last]) {
      var k :| 0 <= k < |peers| && flags[k] && peers[k] == p;
      assert k < last ==> flags[..last][k] && peers[..last][k] == p;
    }
  }

  lemma {:induction false} ArePeers(peers: seq<Choking.Peer>, links: seq<Link>)
    requires Mirrors(peers, links) && Named(links)
    ensures Choking.DistinctIds(peers) && forall p :: p in peers ==> p.id != ""
  {
  }

  lemma {:induction false} ArePeersOf(peers: seq<Choking.Peer>, links: seq<Link>, memory: Choking.Memory)
    requires Mirrors(peers, links)
    ensures forall k :: 0 <= k < |links| ==> peers[k] in peers && Choking.RateOf(memory.lastBytes, peers[k]) == RateOf(memory, links[k])
    ensures forall k :: 0 <= k < |links| && links[k].interested ==> peers[k] in Choking.Interested(peers)
  {
  }

  // ---------- the links of a simulated node ----------

  /** DefaultRotation, in nanoseconds. */
  const ROTATION := 30_000_000_000

  /** connEnd: the link as the choker of n sees it. */
  ghost function LinkOf(w: World, n: int, p: int): (link: Link)
    requires IsLink(w, n, p)
  {
    var k := w.conns[w.nodes[n].conns[p]];
    var m := IndexOf(k, n);
    Link(w.nodes[p].id, k.ends[1 - m].interested, k.ends[m].received, k.ends[m].choking)
  }

  ghost function LinksOf(w: World, n: int, ids: seq<int>): (links: seq<Link>)
    requires AreLinks(w, n, ids)
  {
    seq(|ids|, k requires 0 <= k < |ids| => LinkOf(w, n, ids[k]))
  }

  /** One more change to or from choking. */
  function WithChange(n: Node, choke: bool): (n': Node) {
    if choke then n.(timesChoked := n.timesChoked + 1) else n.(timesUnchoked := n.timesUnchoked + 1)
  }

  /** The whole effect of connEnd.Choke and connEnd.Unchoke: a change is counted, and an unchoke noticed a latency later. */
  ghost function Told(w: World, n: int, p: int, choke: bool): (w': World)
    requires IsLink(w, n, p)
  {
    var c, self := w.nodes[n].conns[p], w.nodes[n];
    var m := IndexOf(w.conns[c], n);
    var e := w.conns[c].ends[m];
    if e.choking == choke then w
    else
      var w1 := WithEnd(w, c, m, e.(choking := choke)).(nodes := w.nodes[n := WithChange(self, choke)]);
      if choke then w1 else Scheduled(w1, w.latency, Unchoked(c, 1 - m))
  }

  /** The links told in this order. */
  ghost function ToldAll(w: World, n: int, ids: seq<int>, verdict: seq<bool>, order: seq<nat>): (w': World) {
    if order == [] then w
    else
      var w1, k := ToldAll(w, n, ids, verdict, order[..|order| - 1]), order[|order| - 1];
      if k < |ids| && k < |verdict| && IsLink(w1, n, ids[k]) then Told(w1, n, ids[k], !verdict[k]) else w1
  }

  /** The connections differ at most in whether n is choking. */
  ghost predicate OnlyChoking(w: World, w': World, n: int) {
    && |w'.nodes| == |w.nodes| && |w'.conns| == |w.conns|
    && (forall i :: 0 <= i < |w.nodes| ==> w'.nodes[i].conns == w.nodes[i].conns && w'.nodes[i].id == w.nodes[i].id && w'.nodes[i].choke == w.nodes[i].choke)
    && w'.now == w.now && w'.latency == w.latency && w'.crashed == w.crashed
    && (forall c :: 0 <= c < |w.conns| ==> SameButChoking(w.conns[c], w'.conns[c], n))
  }

  ghost predicate SameButChoking(k: Conn, k': Conn, n: int) {
    && k'.nodes == k.nodes && |k'.ends| == |k.ends|
    && forall m :: 0 <= m < |k.ends| ==> k'.ends[m] == if m == IndexOf(k, n) then k.ends[m].(choking := k'.ends[m].choking) else k.ends[m]
  }

  lemma {:induction false} ToldOne(w: World, n: int, p: int, choke: bool)
    requires IsLink(w, n, p)
    ensures var w', c := Told(w, n, p, choke), w.nodes[n].conns[p];
            && OnlyChoking(w, w', n) && w'.conns[c].ends[IndexOf(w.conns[c], n)].choking == choke
            && forall d :: 0 <= d < |w.conns| && d != c ==> w'.conns[d] == w.conns[d]
  {
  }

  lemma {:induction false} LinkStays(w: World, w': World, n: int, p: int)
    requires OnlyChoking(w, w', n) && IsLink(w, n, p)
    ensures var c := w.nodes[n].conns[p];
            && IsLink(w', n, p) && w'.nodes[n].conns[p] == c
            && LinkOf(w', n, p) == LinkOf(w, n, p).(choking := w'.conns[c].ends[IndexOf(w.conns[c], n)].choking)
  {
    var c := w.nodes[n].conns[p];
    assert SameButChoking(w.conns[c], w'.conns[c], n);
  }

  lemma {:induction false} ToldMeans(w: World, n: int, ids: seq<int>, k: nat, choke: bool)
    requires AreLinks(w, n, ids) && k < |ids|
    ensures var w' := Told(w, n, ids[k], choke);
            && OnlyChoking(w, w', n) && AreLinks(w', n, ids)
            && forall l :: 0 <= l < |ids| ==> LinkOf(w', n, ids[l]) == if l == k then LinkOf(w, n, ids[l]).(choking := choke) else LinkOf(w, n, ids[l])
  {
    hide IsLink, LinkOf, Told, OnlyChoking;
    var w' := Told(w, n, ids[k], choke);
    ToldOne(w, n, ids[k], choke);
    forall l | 0 <= l < |ids|
      ensures IsLink(w', n, ids[l])
      ensures LinkOf(w', n, ids[l]) == if l == k then LinkOf(w, n, ids[l]).(choking := choke) else LinkOf(w, n, ids[l])
    {
      LinkStays(w, w', n, ids[l]);
      LinksApart(w, w', n, ids[l], ids[k]);
    }
  }

  lemma {:induction false} LinksApart(w: World, w': World, n: int, p: int, q: int)
    requires IsLink(w, n, p) && IsLink(w, n, q)
    requires |w'.conns| == |w.conns| && forall d :: 0 <= d < |w.conns| && d != w.nodes[n].conns[q] ==> w'.conns[d] == w.conns[d]
    ensures p != q ==> w'.conns[w.nodes[n].conns[p]] == w.conns[w.nodes[n].conns[p]]
    ensures LinkOf(w, n, p).choking == w.conns[w.nodes[n].conns[p]].ends[IndexOf(w.conns[w.nodes[n].conns[p]], n)].choking
  {
  }

  /** All are told what the choker decided for them, and nothing else changes in any link. */
  lemma {:induction false} ToldAllMeans(w: World, n: int, ids: seq<int>, verdict: seq<bool>, order: seq<nat>)
    requires AreLinks(w, n, ids) && |verdict| == |ids| && forall j :: 0 <= j < |order| ==> order[j] < |ids|
    ensures var w' := ToldAll(w, n, ids, verdict, order);
            && OnlyChoking(w, w', n) && AreLinks(w', n, ids)
            && forall k :: 0 <= k < |ids| ==> LinkOf(w', n, ids[k]) == LinkOf(w, n, ids[k]).(choking := if k in order then !verdict[k] else LinkOf(w, n, ids[k]).choking)
  {
    hide AreLinks, IsLink, LinkOf, Told;
    if order != [] {
      var last := |order| - 1;
      ToldAllMeans(w, n, ids, verdict, order[..last]);
      var w1 := ToldAll(w, n, ids, verdict, order[..last]);
      LinkAt(w1, n, ids, order[last]);
      ToldMeans(w1, n, ids, order[last], !verdict[order[last]]);
      assert order == order[..last] + [order[last]];
    }
  }

  lemma {:induction false} NobodyTold(w: World, n: int, ids: seq<int>, verdict: seq<bool>)
    ensures ToldAll(w, n, ids, verdict, []) == w
  {
  }

  lemma {:induction false} OneMoreTold(w: World, n: int, ids: seq<int>, verdict: seq<bool>, order: seq<nat>, t: nat)
    requires t < |order| && order[t] < |ids| && |verdict| == |ids|
    requires var w1 := ToldAll(w, n, ids, verdict, order[..t]); IsLink(w1, n, ids[order[t]])
    ensures ToldAll(w, n, ids, verdict, order[..t + 1]) == Told(ToldAll(w, n, ids, verdict, order[..t]), n, ids[order[t]], !verdict[order[t]])
  {
    hide IsLink, Told;
    assert order[..t + 1][..t] == order[..t];
  }

  /** The far side of a link learns in time that it is no longer choked. */
  ghost predicate Noticed(w: World, queue: seq<Event>, n: int, p: int)
    requires IsLink(w, n, p)
  {
    var c := w.nodes[n].conns[p];
    Planned(queue, w.now + w.latency, Unchoked(c, 1 - IndexOf(w.conns[c], n)))
  }

  lemma {:induction false} ToldIsNoticed(w: World, n: int, p: int)
    requires IsLink(w, n, p)
    ensures forall choke :: forall at, act :: Planned(w.queue, at, act) ==> Planned(Told(w, n, p, choke).queue, at, act)
    ensures LinkOf(w, n, p).choking ==> Noticed(w, Told(w, n, p, false).queue, n, p)
  {
    var w' := Told(w, n, p, false);
    if LinkOf(w, n, p).choking {
      NowPlanned(w.queue, w'.queue);
    }
  }

  lemma {:induction false} UnchokesAreNoticed(w: World, n: int, ids: seq<int>, verdict: seq<bool>, order: seq<nat>, k: nat)
    requires AreLinks(w, n, ids) && |verdict| == |ids| && forall j :: 0 <= j < |order| ==> order[j] < |ids|
    requires k in order && IsLink(w, n, ids[k]) && LinkOf(w, n, ids[k]).choking && verdict[k]
    ensures Noticed(w, ToldAll(w, n, ids, verdict, order).queue, n, ids[k])
  {
    hide AreLinks, IsLink, Told, Planned;
    var last := |order| - 1;
    var w1, l := ToldAll(w, n, ids, verdict, order[..last]), order[last];
    ToldAllMeans(w, n, ids, verdict, order[..last]);
    LinkAt(w1, n, ids, l);
    LinkAt(w1, n, ids, k);
    ToldIsNoticed(w1, n, ids[l]);
    LinkStays(w, w1, n, ids[k]);
    assert order == order[..last] + [l];
    if k in order[..last] {
      UnchokesAreNoticed(w, n, ids, verdict, order[..last], k);
    }
  }

  /** The whole effect of a choke tick: the choker judges the links, they are told in turn, and the next choke tick is planned. */
  ghost predicate Rechoked(w: World, w': World, n: int, slots: int, interval: int,
                           ids: seq<int>, verdict: seq<bool>, order: seq<nat>, memory: Choking.Memory)
  {
    && AreLinks(w, n, ids) && 0 <= n < |w.nodes| && (forall p :: p in ids <==> p in w.nodes[n].conns)
    && Judged(LinksOf(w, n, ids), w.nodes[n].choke, slots, ROTATION, w.now, verdict, memory)
    && InTurn(LinksOf(w, n, ids), w.nodes[n].choke, order)
    && w' == Scheduled(ToldAll(Remembering(w, n, memory), n, ids, verdict, order), interval, ChokeTick(n))
  }

  function Remembering(w: World, n: int, memory: Choking.Memory): (w': World)
    requires 0 <= n < |w.nodes|
  {
    w.(nodes := w.nodes[n := w.nodes[n].(choke := memory)])
  }

  function Unchokes(links: seq<Link>): (flags: seq<bool>) {
    seq(|links|, k requires 0 <= k < |links| => !links[k].choking)
  }

  lemma {:induction false} RememberingKeeps(w: World, n: int, memory: Choking.Memory, ids: seq<int>)
    requires AreLinks(w, n, ids) && 0 <= n < |w.nodes|
    ensures AreLinks(Remembering(w, n, memory), n, ids) && LinksOf(Remembering(w, n, memory), n, ids) == LinksOf(w, n, ids)
  {
    var w' := Remembering(w, n, memory);
    forall k | 0 <= k < |ids| ensures IsLink(w', n, ids[k]) && LinkOf(w', n, ids[k]) == LinkOf(w, n, ids[k]) {
      assert IsLink(w, n, ids[k]);
    }
  }

  /** Tit for tat in the swarm: afterwards the node unchokes what its choker judged, and whoever is newly unchoked will notice. */
  lemma {:induction false} TitForTat(w: World, w': World, n: int, slots: int, interval: int,
                                     ids: seq<int>, verdict: seq<bool>, order: seq<nat>, memory: Choking.Memory)
    requires Rechoked(w, w', n, slots, interval, ids, verdict, order, memory)
    ensures |w'.nodes| == |w.nodes| && AreLinks(w', n, ids) && w'.nodes[n].choke == memory
    ensures Judged(LinksOf(w, n, ids), w.nodes[n].choke, slots, ROTATION, w.now, Unchokes(LinksOf(w', n, ids)), w'.nodes[n].choke)
    ensures forall k :: 0 <= k < |ids| && LinksOf(w, n, ids)[k].choking && !LinksOf(w', n, ids)[k].choking ==> Noticed(w, w'.queue, n, ids[k])
    ensures forall c :: 0 <= c < |w.conns| ==> c < |w'.conns| && SameButChoking(w.conns[c], w'.conns[c], n)
  {
    hide IsLink, Told, Judged, Planned, ToldAll, LinkOf;
    var w1 := Remembering(w, n, memory);
    var w2 := ToldAll(w1, n, ids, verdict, order);
    RememberingKeeps(w, n, memory, ids);
    JudgedAll(LinksOf(w, n, ids), w.nodes[n].choke, slots, w.now, verdict, order, memory);
    ToldAllMeans(w1, n, ids, verdict, order);
    assert w'.queue == w2.queue + [Event(w2.now + interval, w2.seqNo + 1, ChokeTick(n))];
    PlannedLater(w2, w', n, ids);
    assert Unchokes(LinksOf(w', n, ids)) == verdict;
    forall k | 0 <= k < |ids| && LinksOf(w, n, ids)[k].choking && !LinksOf(w', n, ids)[k].choking ensures Noticed(w, w'.queue, n, ids[k]) {
      UnchokesAreNoticed(w1, n, ids, verdict, order, k);
    }
  }

  lemma {:induction false} PlannedLater(w: World, w': World, n: int, ids: seq<int>)
    requires AreLinks(w, n, ids) && w'.nodes == w.nodes && w'.conns == w.conns && |w'.queue| == |w.queue| + 1 && w'.queue[..|w.queue|] == w.queue
    ensures AreLinks(w', n, ids) && LinksOf(w', n, ids) == LinksOf(w, n, ids)
    ensures forall at, act :: Planned(w.queue, at, act) ==> Planned(w'.queue, at, act)
  {
    forall k | 0 <= k < |ids| ensures IsLink(w', n, ids[k]) && LinkOf(w', n, ids[k]) == LinkOf(w, n, ids[k]) {
      assert IsLink(w, n, ids[k]);
    }
    NowPlanned(w.queue, w'.queue);
  }

  lemma {:induction false} JudgedAll(links: seq<Link>, memory: Choking.Memory, slots: int, now: int,
                                     verdict: seq<bool>, order: seq<nat>, memory': Choking.Memory)
    requires Judged(links, memory, slots, ROTATION, now, verdict, memory') && InTurn(links, memory, order)
    ensures |verdict| == |links| && forall j :: 0 <= j < |order| ==> order[j] < |links|
    ensures forall k :: 0 <= k < |links| ==> k in order
  {
    hide Before, KeepsTurn, SlotsUsed, FastestServed, Recorded;
    forall j | 0 <= j < |order| ensures order[j] < |links| {
      assert order[j] in order;
    }
  }
}
