/** Tit-for-tat unchoking: internal/choker/choker.go. */
module Choking {
  import opened Bytes

  /** A connection, as the choker sees it; Choke and Unchoke take effect. */
  class Peer {
    const id: string
    const interested: bool
    const bytes: int
    var choking: bool

    constructor (id: string, interested: bool, bytes: int, choking: bool)
      ensures this.id == id && this.interested == interested && this.bytes == bytes && this.choking == choking
    {
      this.id, this.interested, this.bytes, this.choking := id, interested, bytes, choking;
    }
  }

  datatype Ranked = Ranked(peer: Peer, rate: int)

  /** What a choker remembers from one run to the next; no rotation before the first. */
  datatype Memory = Memory(lastBytes: map<string, int>, lastRotation: Option<int>, optimistic: string)

  const FRESH := Memory(map[], None, "")

  /** Peers with ids of their own. */
  ghost predicate DistinctIds(peers: seq<Peer>) {
    forall i, j :: 0 <= i < j < |peers| ==> peers[i].id != peers[j].id
  }

  ghost function PeersOf(ranked: seq<Ranked>): (ps: set<Peer>) {
    set i | 0 <= i < |ranked| :: ranked[i].peer
  }

  ghost predicate RankedDistinct(ranked: seq<Ranked>) {
    forall i, j :: 0 <= i < j < |ranked| ==> ranked[i].peer.id != ranked[j].peer.id
  }

  /** Fastest first. */
  ghost predicate FastestFirst(ranked: seq<Ranked>) {
    forall i, j :: 0 <= i < j < |ranked| ==> ranked[i].rate >= ranked[j].rate
  }

  /** What a peer has given since the last run; a counter that went back counts as nothing. */
  function Rate(lastBytes: map<string, int>, id: string, bytes: int): (rate: int)
    ensures rate >= 0
  {
    var rate := bytes - if id in lastBytes then lastBytes[id] else 0;
    if rate < 0 then 0 else rate
  }

  function RateOf(lastBytes: map<string, int>, p: Peer): (rate: int) {
    Rate(lastBytes, p.id, p.bytes)
  }

  ghost predicate RatedBy(ranked: seq<Ranked>, lastBytes: map<string, int>) {
    forall i :: 0 <= i < |ranked| ==> ranked[i].rate == RateOf(lastBytes, ranked[i].peer)
  }

  /** A ranking of all who are interested, fastest first. */
  ghost predicate Ranks(ranked: seq<Ranked>, peers: seq<Peer>, lastBytes: map<string, int>) {
    RankedDistinct(ranked) && FastestFirst(ranked) && RatedBy(ranked, lastBytes) && PeersOf(ranked) == Interested(peers)
  }

  ghost function Interested(peers: seq<Peer>): (ps: set<Peer>) {
    set p | p in peers && p.interested
  }

  ghost function Unchoked(peers: seq<Peer>): (ps: set<Peer>)
    reads set p | p in peers
  {
    set p | p in peers && !p.choking
  }

  /** The place of a newcomer in a stable sort, fastest first: behind everyone at least as fast. */
  function InsertRanked(ranked: seq<Ranked>, r: Ranked): (out: seq<Ranked>) {
    var last := |ranked| - 1;
    if last >= 0 && ranked[last].rate < r.rate then InsertRanked(ranked[..last], r) + [ranked[last]] else ranked + [r]
  }

  /** The interested peers, fastest first, those of equal rate in the order given. */
  function Ranking(peers: seq<Peer>, lastBytes: map<string, int>): (ranked: seq<Ranked>) {
    if peers == [] then []
    else
      var last := |peers| - 1;
      var ranked := Ranking(peers[..last], lastBytes);
      if peers[last].interested then InsertRanked(ranked, Ranked(peers[last], RateOf(lastBytes, peers[last]))) else ranked
  }

  /** The old optimistic peer goes on: it is ranked behind the m regular slots and its turn is not over. */
  predicate IsKept(ranked: seq<Ranked>, m: nat, optimistic: string, due: bool) {
    !due && optimistic != "" && exists i :: m <= i < |ranked| && ranked[i].peer.id == optimistic
  }

  /** The id of the peer that a random number picks behind the m regular slots. */
  function Drawn(ranked: seq<Ranked>, m: nat, choice: nat): (id: string)
    requires m < |ranked|
  {
    ranked[m + choice % (|ranked| - m)].peer.id
  }

  /** Everyone behind the regular slots may be drawn, and nobody else. */
  lemma {:induction false} AnyoneMayBeDrawn(ranked: seq<Ranked>, m: nat, i: nat)
    requires m <= i < |ranked|
    ensures Drawn(ranked, m, i - m) == ranked[i].peer.id
    ensures forall choice: nat :: exists j :: m <= j < |ranked| && Drawn(ranked, m, choice) == ranked[j].peer.id
  {
    assert (i - m) % (|ranked| - m) == i - m;
    forall choice: nat ensures exists j :: m <= j < |ranked| && Drawn(ranked, m, choice) == ranked[j].peer.id {
      var j := m + choice % (|ranked| - m);
      assert m <= j < |ranked| && Drawn(ranked, m, choice) == ranked[j].peer.id;
    }
  }

  /** Behind the m regular slots, the optimistic pick is drawn anew and falls on a peer whose id is empty. */
  predicate Wastes(ranked: seq<Ranked>, m: nat, optimistic: string, due: bool, choice: nat) {
    m < |ranked| && !IsKept(ranked, m, optimistic, due) && Drawn(ranked, m, choice) == ""
  }

  class Choker {
    const slots: int
    const rotation: int
    var lastBytes: map<string, int>
    /** No value before the first rotation. */
    var lastRotation: Option<int>
    var optimistic: string

    constructor (slots: int, rotation: int)
      ensures this.slots == if slots < 1 then 1 else slots
      ensures this.rotation == rotation && lastBytes == map[] && lastRotation == None && optimistic == ""
    {
      this.slots := if slots < 1 then 1 else slots;
      this.rotation := rotation;
      lastBytes, lastRotation, optimistic := map[], None, "";
    }

    /** A choker that has run before. */
    constructor Resume(slots: int, rotation: int, memory: Memory)
      ensures this.slots == if slots < 1 then 1 else slots
      ensures this.rotation == rotation && Remembered() == memory
    {
      this.slots := if slots < 1 then 1 else slots;
      this.rotation := rotation;
      lastBytes, lastRotation, optimistic := memory.lastBytes, memory.lastRotation, memory.optimistic;
    }

    function Remembered(): (memory: Memory)
      reads this
    {
      Memory(lastBytes, lastRotation, optimistic)
    }

    predicate Due(now: int)
      reads this
    {
      lastRotation.None? || now - lastRotation.value >= rotation
    }

    /** Run. `choice` is the random number behind the optimistic pick. */
    method Run(peers: seq<Peer>, now: int, choice: nat)
      requires DistinctIds(peers) && slots >= 1
      modifies this, set p | p in peers
      // every slot is used, except that one is lost exactly when a pick drawn anew falls on an empty id
      ensures |Ranking(peers, old(lastBytes))| == |Interested(peers)| && Ranks(Ranking(peers, old(lastBytes)), peers, old(lastBytes))
      ensures |Unchoked(peers)| == Min(slots, |Interested(peers)|) -
                if Wastes(Ranking(peers, old(lastBytes)), slots - 1, old(optimistic), old(Due(now)), choice) then 1 else 0
      ensures (forall p :: p in Interested(peers) ==> p.id != "") ==> |Unchoked(peers)| == Min(slots, |Interested(peers)|)
      // who gets them
      ensures Unchoked(peers) <= Interested(peers)
      ensures forall p, q :: p in Unchoked(peers) && p.id != optimistic && q in Interested(peers) && q.choking ==>
                RateOf(old(lastBytes), p) >= RateOf(old(lastBytes), q)
      ensures optimistic != "" ==> exists p :: p in Interested(peers) && p.id == optimistic && !p.choking
      ensures IsKept(Ranking(peers, old(lastBytes)), slots - 1, old(optimistic), old(Due(now))) ==>
                optimistic == old(optimistic) && lastRotation == old(lastRotation)
      ensures var ranked := Ranking(peers, old(lastBytes));
              slots <= |ranked| && !IsKept(ranked, slots - 1, old(optimistic), old(Due(now))) ==>
                optimistic == Drawn(ranked, slots - 1, choice) && lastRotation == Some(now)
      ensures slots <= |Interested(peers)| && (old(lastRotation).None? || now - old(lastRotation).value >= rotation) ==> lastRotation == Some(now)
      ensures old(optimistic) != "" && !old(Due(now)) && optimistic != old(optimistic) ==>
                forall p :: p in Interested(peers) && p.id == old(optimistic) ==>
                  !p.choking && forall q :: q in Interested(peers) && q.choking ==> RateOf(old(lastBytes), p) >= RateOf(old(lastBytes), q)
      ensures forall p :: p in peers ==> p.id in lastBytes && lastBytes[p.id] == p.bytes
    {
      hide FastestFirst, RankedDistinct, DistinctIds, Chosen, PeersOf, RateOf, RatedBy, Ranking, IsKept, Drawn, Wastes;
      ghost var due := Due(now);
      var ranked := Rank(peers);
      var m := Min(slots - 1, |ranked|);
      var o := PickOptimistic(ranked, m, now, choice);
      SetChoking(ranked, m, o);
      SizeOfPrefix(ranked, |ranked|);
      SizeOfChosen(ranked, m, o);
      UnchokedAreChosen(peers, ranked, m, o);
      RankedAre(peers, ranked);
      FasterThanChoked(peers, ranked, m, o, old(lastBytes));
      assert Ranks(ranked, peers, old(lastBytes));
      KeptIsAt(ranked, slots - 1, old(optimistic), due, choice);
    }

    /** The first loop: uninterested peers are choked, the others ranked by rate, fastest first. */
    method Rank(peers: seq<Peer>) returns (ranked: seq<Ranked>)
      requires DistinctIds(peers)
      modifies this`lastBytes, set p | p in peers
      ensures ranked == Ranking(peers, old(lastBytes))
      ensures RankedDistinct(ranked) && FastestFirst(ranked) && PeersOf(ranked) == Interested(peers)
      ensures RatedBy(ranked, old(lastBytes))
      ensures forall p :: p in peers && !p.interested ==> p.choking
      ensures forall p :: p in peers ==> p.id in lastBytes && lastBytes[p.id] == p.bytes
    {
      hide FastestFirst, RankedDistinct, DistinctIds, PeersOf, RateOf, RatedBy, Ranking, InsertRanked, Interested;
      ranked := [];
      ghost var before := lastBytes;
      NothingRanked(peers, before);
      for i := 0 to |peers|
        invariant ranked == Ranking(peers[..i], before)
        invariant RankedDistinct(ranked) && FastestFirst(ranked) && PeersOf(ranked) == Interested(peers[..i])
        invariant RatedBy(ranked, before)
        invariant forall k :: 0 <= k < i && !peers[k].interested ==> peers[k].choking
        invariant Recorded(before, lastBytes, peers, i)
      {
        var p := peers[i];
        RankingStep(peers, i, before);
        NotSeenBefore(peers, i, ranked);
        RecordedStep(before, lastBytes, peers, i);
        var rate := RateOf(lastBytes, p);
        lastBytes := lastBytes[p.id := p.bytes];
        if !p.interested {
          if !p.choking {
            p.choking := true;
          }
        } else {
          ranked := InsertByRate(ranked, Ranked(p, rate), before);
        }
      }
      assert peers[..|peers|] == peers;
      AllRecorded(before, lastBytes, peers);
    }

    /** pickOptimistic: the index in the ranking of the peer that gets the optimistic slot, or -1. */
    method PickOptimistic(ranked: seq<Ranked>, m: int, now: int, choice: nat) returns (o: int)
      requires RankedDistinct(ranked) && slots >= 1 && m == Min(slots - 1, |ranked|)
      modifies this`optimistic, this`lastRotation
      ensures o == -1 || (m <= o < |ranked| && ranked[o].peer.id == optimistic && optimistic != "")
      ensures o == -1 ==> optimistic == ""
      ensures o == -1 <==> m == |ranked| || Wastes(ranked, m, old(optimistic), old(Due(now)), choice)
      ensures o == -1 && m < |ranked| ==> exists i :: m <= i < |ranked| && ranked[i].peer.id == ""
      ensures IsKept(ranked, m, old(optimistic), old(Due(now))) ==> optimistic == old(optimistic) && lastRotation == old(lastRotation)
      ensures m < |ranked| && !IsKept(ranked, m, old(optimistic), old(Due(now))) ==>
                optimistic == Drawn(ranked, m, choice) && lastRotation == Some(now)
    {
      if |ranked| == 0 {
        optimistic := "";
        return -1;
      }
      var k := FindRanked(ranked, optimistic);
      var stillEligible := optimistic != "" && m <= k < |ranked|;
      if !stillEligible || Due(now) {
        if m == |ranked| {
          optimistic := "";
          lastRotation := Some(now);
          return -1;
        }
        k := m + choice % (|ranked| - m);
        optimistic := ranked[k].peer.id;
        lastRotation := Some(now);
      }
      o := if optimistic != "" then k else -1;
    }

    /** The last loop of Run. */
    method SetChoking(ranked: seq<Ranked>, m: int, o: int)
      requires RankedDistinct(ranked)
      modifies PeersOf(ranked)
      ensures forall i :: 0 <= i < |ranked| ==> ranked[i].peer.choking == !(i < m || i == o)
    {
      for i := 0 to |ranked|
        invariant forall k :: 0 <= k < i ==> ranked[k].peer.choking == !(k < m || k == o)
      {
        var p := ranked[i].peer;
        assert p in PeersOf(ranked);
        var want := i < m || i == o;
        if want && p.choking {
          p.choking := false;
        } else if !want && !p.choking {
          p.choking := true;
        }
      }
    }
  }

  /** The sort is stable insertion: equal rates keep their order. */
  method InsertByRate(ranked: seq<Ranked>, r: Ranked, ghost lastBytes: map<string, int>) returns (out: seq<Ranked>)
    requires RatedBy(ranked, lastBytes) && r.rate == RateOf(lastBytes, r.peer)
    ensures RatedBy(out, lastBytes)
    requires FastestFirst(ranked) && RankedDistinct(ranked) && forall i :: 0 <= i < |ranked| ==> ranked[i].peer.id != r.peer.id
    ensures FastestFirst(out) && RankedDistinct(out) && PeersOf(out) == PeersOf(ranked) + {r.peer}
    ensures out == InsertRanked(ranked, r)
  {
    hide PeersOf, FastestFirst, RankedDistinct;
    var k := |ranked|;
    while k > 0 && ranked[k - 1].rate < r.rate
      invariant 0 <= k <= |ranked| && forall i :: k <= i < |ranked| ==> ranked[i].rate < r.rate
    {
      k := k - 1;
    }
    out := ranked[..k] + [r] + ranked[k..];
    InsertedAt(ranked, r, k);
    OneMorePeer(ranked, r, k);
    InOrderAfter(ranked, r, k);
  }

  lemma {:induction false} InsertedAt(ranked: seq<Ranked>, r: Ranked, k: nat)
    requires k <= |ranked| && (k > 0 ==> ranked[k - 1].rate >= r.rate) && forall i :: k <= i < |ranked| ==> ranked[i].rate < r.rate
    ensures InsertRanked(ranked, r) == ranked[..k] + [r] + ranked[k..]
  {
    var last := |ranked| - 1;
    if k <= last {
      InsertedAt(ranked[..last], r, k);
      assert ranked[k..] == ranked[..last][k..] + [ranked[last]];
      assert ranked[..last][..k] == ranked[..k];
    }
  }

  /** The counters of the first i peers are written down, and the others are rated as before. */
  ghost predicate Recorded(before: map<string, int>, lastBytes: map<string, int>, peers: seq<Peer>, i: nat) {
    && i <= |peers|
    && (forall k :: 0 <= k < i ==> peers[k].id in lastBytes && lastBytes[peers[k].id] == peers[k].bytes)
    && (forall j :: i <= j < |peers| ==> RateOf(lastBytes, peers[j]) == RateOf(before, peers[j]))
  }

  lemma {:induction false} RecordedStep(before: map<string, int>, lastBytes: map<string, int>, peers: seq<Peer>, i: nat)
    requires i < |peers| && DistinctIds(peers) && Recorded(before, lastBytes, peers, i)
    ensures Recorded(before, lastBytes[peers[i].id := peers[i].bytes], peers, i + 1)
    ensures RateOf(lastBytes, peers[i]) == RateOf(before, peers[i])
  {
  }

  lemma {:induction false} NothingRanked(peers: seq<Peer>, before: map<string, int>)
    ensures [] == Ranking(peers[..0], before)
    ensures RankedDistinct([]) && FastestFirst([]) && PeersOf([]) == Interested(peers[..0]) && RatedBy([], before)
    ensures Recorded(before, before, peers, 0)
  {
  }

  lemma {:induction false} AllRecorded(before: map<string, int>, lastBytes: map<string, int>, peers: seq<Peer>)
    requires Recorded(before, lastBytes, peers, |peers|)
    ensures forall p :: p in peers ==> p.id in lastBytes && lastBytes[p.id] == p.bytes
  {
  }

  lemma {:induction false} RankingStep(peers: seq<Peer>, i: nat, lastBytes: map<string, int>)
    requires i < |peers|
    ensures Ranking(peers[..i + 1], lastBytes) ==
              if peers[i].interested then InsertRanked(Ranking(peers[..i], lastBytes), Ranked(peers[i], RateOf(lastBytes, peers[i])))
              else Ranking(peers[..i], lastBytes)
    ensures Interested(peers[..i + 1]) == Interested(peers[..i]) + if peers[i].interested then {peers[i]} else {}
  {
    hide InsertRanked;
    assert peers[..i + 1] == peers[..i] + [peers[i]];
    assert peers[..i + 1][..i] == peers[..i];
  }

  /** A slot is kept or lost only behind the regular ones; an old optimistic peer that is not kept is a regular one, or gone. */
  lemma {:induction false} KeptIsAt(ranked: seq<Ranked>, m: nat, optimistic: string, due: bool, choice: nat)
    ensures due ==> !IsKept(ranked, m, optimistic, due)
    ensures IsKept(ranked, m, optimistic, due) || Wastes(ranked, m, optimistic, due, choice) ==> m < |ranked|
    ensures optimistic != "" && !due && !IsKept(ranked, m, optimistic, due) ==>
      forall i :: 0 <= i < |ranked| && ranked[i].peer.id == optimistic ==> i < m
  {
  }

  lemma {:induction false} InOrderAfter(ranked: seq<Ranked>, r: Ranked, k: nat)
    requires FastestFirst(ranked) && RankedDistinct(ranked) && forall i :: 0 <= i < |ranked| ==> ranked[i].peer.id != r.peer.id
    requires k <= |ranked| && (k > 0 ==> ranked[k - 1].rate >= r.rate) && forall i :: k <= i < |ranked| ==> ranked[i].rate < r.rate
    ensures FastestFirst(ranked[..k] + [r] + ranked[k..]) && RankedDistinct(ranked[..k] + [r] + ranked[k..])
  {
    FasterAfter(ranked, r, k);
    DistinctAfter(ranked, r, k);
  }

  lemma {:induction false} FasterAfter(ranked: seq<Ranked>, r: Ranked, k: nat)
    requires FastestFirst(ranked) && k <= |ranked| && (k > 0 ==> ranked[k - 1].rate >= r.rate) && forall i :: k <= i < |ranked| ==> ranked[i].rate < r.rate
    ensures FastestFirst(ranked[..k] + [r] + ranked[k..])
  {
    var out := ranked[..k] + [r] + ranked[k..];
    assert forall i :: 0 <= i < k ==> ranked[i].rate >= ranked[k - 1].rate;
    forall i, j | 0 <= i < j < |out| ensures out[i].rate >= out[j].rate {
      assert out[i] == if i < k then ranked[i] else if i == k then r else ranked[i - 1];
      assert out[j] == if j < k then ranked[j] else if j == k then r else ranked[j - 1];
    }
  }

  lemma {:induction false} DistinctAfter(ranked: seq<Ranked>, r: Ranked, k: nat)
    requires RankedDistinct(ranked) && k <= |ranked| && forall i :: 0 <= i < |ranked| ==> ranked[i].peer.id != r.peer.id
    ensures RankedDistinct(ranked[..k] + [r] + ranked[k..])
  {
    var out := ranked[..k] + [r] + ranked[k..];
    forall i, j | 0 <= i < j < |out| ensures out[i].peer.id != out[j].peer.id {
      assert out[i] == if i < k then ranked[i] else if i == k then r else ranked[i - 1];
      assert out[j] == if j < k then ranked[j] else if j == k then r else ranked[j - 1];
    }
  }

  lemma {:induction false} OneMorePeer(ranked: seq<Ranked>, r: Ranked, k: nat)
    requires k <= |ranked|
    ensures PeersOf(ranked[..k] + [r] + ranked[k..]) == PeersOf(ranked) + {r.peer}
  {
    var out := ranked[..k] + [r] + ranked[k..];
    forall p | p in PeersOf(ranked) + {r.peer} ensures p in PeersOf(out) {
      if p in PeersOf(ranked) {
        var i :| 0 <= i < |ranked| && ranked[i].peer == p;
        assert out[if i < k then i else i + 1].peer == p;
      } else {
        assert out[k].peer == p;
      }
    }
    forall p | p in PeersOf(out) ensures p in PeersOf(ranked) + {r.peer} {
      var i :| 0 <= i < |out| && out[i].peer == p;
      if i < k {
        assert ranked[i].peer == p;
      } else if i > k {
        assert ranked[i - 1].peer == p;
      }
    }
  }

  /** The place of an id in the ranking, or one past it. */
  method FindRanked(ranked: seq<Ranked>, id: string) returns (k: int)
    ensures 0 <= k <= |ranked| && (k < |ranked| ==> ranked[k].peer.id == id)
    ensures k == |ranked| ==> forall i :: 0 <= i < |ranked| ==> ranked[i].peer.id != id
  {
    k := 0;
    while k < |ranked| && ranked[k].peer.id != id
      invariant 0 <= k <= |ranked| && forall i :: 0 <= i < k ==> ranked[i].peer.id != id
    {
      k := k + 1;
    }
  }

  lemma {:induction false} NotSeenBefore(peers: seq<Peer>, i: nat, ranked: seq<Ranked>)
    requires DistinctIds(peers) && i < |peers| && PeersOf(ranked) == Interested(peers[..i])
    ensures forall k :: 0 <= k < |ranked| ==> ranked[k].peer.id != peers[i].id
  {
    forall k | 0 <= k < |ranked| ensures ranked[k].peer.id != peers[i].id {
      assert ranked[k].peer in PeersOf(ranked);
      assert ranked[k].peer in peers[..i];
    }
  }

  /** The peers that get a slot: the first m, and the optimistic one. */
  ghost function Chosen(ranked: seq<Ranked>, m: int, o: int): (ps: set<Peer>) {
    set i | 0 <= i < |ranked| && (i < m || i == o) :: ranked[i].peer
  }

  lemma {:induction false} SizeOfPrefix(ranked: seq<Ranked>, n: nat)
    requires RankedDistinct(ranked) && n <= |ranked|
    ensures |PeersOf(ranked[..n])| == n
    ensures n == |ranked| ==> |PeersOf(ranked)| == n
  {
    if n == 0 {
      assert PeersOf(ranked[..0]) == {};
    } else {
      SizeOfPrefix(ranked, n - 1);
      var p := ranked[n - 1].peer;
      assert ranked[..n] == ranked[..n - 1] + [ranked[n - 1]];
      OneMorePeer(ranked[..n - 1], ranked[n - 1], n - 1);
      assert ranked[..n - 1][n - 1..] == [] && ranked[..n - 1][..n - 1] == ranked[..n - 1];
      assert ranked[..n - 1] + [ranked[n - 1]] + [] == ranked[..n];
      assert p !in PeersOf(ranked[..n - 1]);
    }
    assert ranked[..|ranked|] == ranked;
  }

  lemma {:induction false} SizeOfChosen(ranked: seq<Ranked>, m: int, o: int)
    requires RankedDistinct(ranked) && 0 <= m <= |ranked| && (o == -1 || m <= o < |ranked|)
    ensures |Chosen(ranked, m, o)| == m + if o == -1 then 0 else 1
  {
    SizeOfPrefix(ranked, m);
    var first := PeersOf(ranked[..m]);
    forall q | q in first ensures q in Chosen(ranked, m, o) {
      var i :| 0 <= i < m && ranked[..m][i].peer == q;
      assert ranked[i].peer == q;
    }
    forall q | q in Chosen(ranked, m, o) ensures q in first || (o != -1 && q == ranked[o].peer) {
      var i :| 0 <= i < |ranked| && (i < m || i == o) && ranked[i].peer == q;
      assert i < m ==> ranked[..m][i].peer == q;
    }
    if o != -1 {
      assert Chosen(ranked, m, o) == first + {ranked[o].peer};
    } else {
      assert Chosen(ranked, m, o) == first;
    }
  }

  lemma {:induction false} RankedAre(peers: seq<Peer>, ranked: seq<Ranked>)
    requires PeersOf(ranked) == Interested(peers)
    ensures forall p :: p in Interested(peers) ==> exists i :: 0 <= i < |ranked| && ranked[i].peer == p
    ensures forall i :: 0 <= i < |ranked| ==> ranked[i].peer in Interested(peers)
  {
    forall i | 0 <= i < |ranked| ensures ranked[i].peer in Interested(peers) {
      assert ranked[i].peer in PeersOf(ranked);
    }
  }

  lemma {:induction false} UnchokedAreChosen(peers: seq<Peer>, ranked: seq<Ranked>, m: int, o: int)
    requires PeersOf(ranked) == Interested(peers) && RankedDistinct(ranked)
    requires forall i :: 0 <= i < |ranked| ==> ranked[i].peer.choking == !(i < m || i == o)
    requires forall p :: p in peers && !p.interested ==> p.choking
    ensures Unchoked(peers) == Chosen(ranked, m, o)
  {
    forall p | p in Unchoked(peers) ensures p in Chosen(ranked, m, o) {
      assert p in PeersOf(ranked);
    }
    forall p | p in Chosen(ranked, m, o) ensures p in Unchoked(peers) {
      assert p in PeersOf(ranked);
    }
  }

  /** Whoever has a regular slot is unchoked, and no slower than anyone choked. */
  lemma {:induction false} FasterThanChoked(peers: seq<Peer>, ranked: seq<Ranked>, m: int, o: int, lastBytes: map<string, int>)
    requires PeersOf(ranked) == Interested(peers) && RankedDistinct(ranked) && FastestFirst(ranked) && 0 <= m <= |ranked|
    requires RatedBy(ranked, lastBytes)
    requires forall i :: 0 <= i < |ranked| ==> ranked[i].peer.choking == !(i < m || i == o)
    requires forall p :: p in peers && !p.interested ==> p.choking
    ensures forall i, q :: 0 <= i < m && q in Interested(peers) && q.choking ==> RateOf(lastBytes, ranked[i].peer) >= RateOf(lastBytes, q)
    ensures forall p :: p in Unchoked(peers) ==> exists i :: 0 <= i < |ranked| && (i < m || i == o) && ranked[i].peer == p
  {
    RankedAre(peers, ranked);
    UnchokedAreChosen(peers, ranked, m, o);
    forall i, q | 0 <= i < m && q in Interested(peers) && q.choking ensures RateOf(lastBytes, ranked[i].peer) >= RateOf(lastBytes, q) {
      var j :| 0 <= j < |ranked| && ranked[j].peer == q;
      assert j >= m;
    }
  }

  /** Two runs in a row, with the peers' counters as each run finds them: slots go by what each peer has given in between. */
  method RunTwice(c: Choker, before: seq<Peer>, earlier: int, choice: nat, peers: seq<Peer>, now: int, nextChoice: nat)
    requires DistinctIds(before) && DistinctIds(peers) && c.slots >= 1
    modifies c, set p | p in before, set p | p in peers
    ensures forall p, q, p0, q0 ::
              p in peers && !p.choking && p.id != c.optimistic && q in peers && q.interested && q.choking
              && p0 in before && p0.id == p.id && q0 in before && q0.id == q.id ==>
                p.bytes - p0.bytes >= q.bytes - q0.bytes || q.bytes <= q0.bytes
  {
    hide Ranks, Ranking, Wastes, IsKept, Drawn, DistinctIds;
    c.Run(before, earlier, choice);
    ghost var lastBytes := c.lastBytes;
    c.Run(peers, now, nextChoice);
    forall p, q, p0, q0 | p in peers && !p.choking && p.id != c.optimistic && q in peers && q.interested && q.choking
                          && p0 in before && p0.id == p.id && q0 in before && q0.id == q.id
      ensures p.bytes - p0.bytes >= q.bytes - q0.bytes || q.bytes <= q0.bytes
    {
      assert p in Unchoked(peers) && q in Interested(peers);
      assert RateOf(lastBytes, p) >= RateOf(lastBytes, q);
    }
  }

  /** The empty id at work: the only interested peer, a free slot, and nobody is unchoked. */
  method EmptyIdIsNeverUnchoked() returns (p: Peer)
    ensures p.interested && p.choking && p.id == ""
  {
    p := new Peer("", true, 0, true);
    var c := new Choker(1, 30);
    c.Run([p], 0, 0);
    assert Interested([p]) == {p} by { assert p in [p]; }
    assert |Interested([p])| == 1;
    assert c.optimistic == "";
    assert p in Unchoked([p]) <==> !p.choking;
  }
}
