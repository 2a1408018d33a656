/** What a picker knows, and what each of its operations may do to it: internal/picker. */
module PickerState {
  import opened Bytes
  import opened Blocks

  datatype Strategy = RarestFirst | Sequential
  datatype Priority = Skip | Low | Normal | High

  /** The settings that never change; lengths[i] is PieceLength(i). */
  datatype Config = Config(lengths: seq<nat>, maxActive: nat, requestTimeout: int, endgameThreshold: nat, endgameTimeout: int)

  datatype State = State(cfg: Config, have: set<int>, active: map<int, Progress>, priority: Option<seq<Priority>>,
                         strategy: Strategy, avail: seq<nat>)

  predicate IsPiece(s: State, i: int) {
    0 <= i < |s.cfg.lengths|
  }

  ghost predicate PieceSound(s: State, i: int, pp: Progress) {
    IsPiece(s, i) && i !in s.have && pp.index == i && pp.length == s.cfg.lengths[i] && Sound(pp)
  }

  /** What every operation keeps. */
  ghost predicate Valid(s: State) {
    && |s.cfg.lengths| > 0 && |s.avail| == |s.cfg.lengths|
    && (forall i :: i in s.have ==> IsPiece(s, i))
    && (forall i :: i in s.active ==> PieceSound(s, i, s.active[i]))
    && |s.active| <= s.cfg.maxActive
    && (s.priority.Some? ==> |s.priority.value| == |s.cfg.lengths|)
  }

  function Tier(s: State, i: int): (p: Priority)
    requires Valid(s) && IsPiece(s, i)
  {
    if s.priority.Some? then s.priority.value[i] else Normal
  }

  /** The pieces wanted and still missing. */
  function Missing(s: State): (m: set<int>)
    requires Valid(s)
  {
    set i | 0 <= i < |s.cfg.lengths| && Tier(s, i) != Skip && i !in s.have
  }

  predicate Finished(s: State)
    requires Valid(s)
  {
    Missing(s) == {}
  }

  predicate InEndgame(s: State)
    requires Valid(s)
  {
    0 < |Missing(s)| <= s.cfg.endgameThreshold
  }

  function Timeout(s: State): (t: int)
    requires Valid(s)
  {
    if InEndgame(s) then s.cfg.endgameTimeout else s.cfg.requestTimeout
  }

  // ---------- work still to do ----------

  /** Block b of piece i has not been received in the current attempt. */
  ghost predicate ToDo(s: State, i: int, b: int) {
    && IsPiece(s, i) && i !in s.have && 0 <= b < BlockCount(s.cfg.lengths[i])
    && !(i in s.active && b < |s.active[i].states| && s.active[i].states[b] == Delivered)
  }

  ghost predicate NoNewWork(s: State, s': State) {
    s'.cfg == s.cfg && forall i, b :: ToDo(s', i, b) ==> ToDo(s, i, b)
  }

  // ---------- operations ----------

  function MarkVerified(s: State, index: int): (s': State) {
    s.(have := if IsPiece(s, index) then s.have + {index} else s.have, active := s.active - {index})
  }

  lemma {:induction false} MarkVerifiedKeeps(s: State, index: int)
    requires Valid(s)
    ensures Valid(MarkVerified(s, index)) && NoNewWork(s, MarkVerified(s, index))
  {
    hide BlockCount, Sound;
    var s' := MarkVerified(s, index);
    FewerPieces(s, s', {index});
    assert forall i, b :: ToDo(s', i, b) ==> i != index && ToDo(s, i, b);
  }

  /** Dropping pieces in progress while adding pieces held, at least those dropped. */
  lemma {:induction false} FewerPieces(s: State, s': State, gone: set<int>)
    requires Valid(s) && s' == s.(active := s.active - gone, have := s'.have)
    requires forall i :: i in s'.have ==> IsPiece(s, i) && (i in s.have || i in gone)
    ensures Valid(s')
  {
    hide BlockCount, Sound;
    FewerKeys(s'.active, s.active);
    forall i | i in s'.active ensures PieceSound(s', i, s'.active[i]) {
      assert PieceSound(s, i, s.active[i]);
    }
  }

  lemma {:induction false} FewerKeys(m: map<int, Progress>, n: map<int, Progress>)
    requires m.Keys <= n.Keys
    ensures |m| <= |n|
  {
    SubsetSize(m.Keys, n.Keys);
    assert |m| == |m.Keys| && |n| == |n.Keys|;
  }

  lemma {:induction false} SubsetSize<T>(a: set<T>, b: set<T>)
    requires a <= b
    ensures |a| <= |b|
  {
    if a != {} {
      var x :| x in a;
      SubsetSize(a - {x}, b - {x});
    }
  }

  function ResetPiece(pp: Progress): (pp': Progress) {
    pp.(states := seq(|pp.states|, i => Needed), done := 0)
  }

  function MarkFailed(s: State, index: int): (s': State) {
    if index in s.active then s.(active := s.active[index := ResetPiece(s.active[index])])
    else s.(have := s.have - {index})
  }

  /** A failed piece is all to do again; this is the one operation that adds work, and only to that piece. */
  lemma {:induction false} MarkFailedKeeps(s: State, index: int)
    requires Valid(s)
    ensures var s' := MarkFailed(s, index);
            && Valid(s')
            && (forall b :: IsPiece(s, index) && 0 <= b < BlockCount(s.cfg.lengths[index]) ==> ToDo(s', index, b))
            && (forall i, b :: i != index ==> (ToDo(s', i, b) <==> ToDo(s, i, b)))
  {
    hide BlockCount;
    var s' := MarkFailed(s, index);
    if index in s.active {
      NoneDone(s'.active[index].states);
      assert PieceSound(s, index, s.active[index]);
      assert s'.active.Keys == s.active.Keys;
      FewerKeys(s'.active, s.active);
    }
    forall i | i in s'.active ensures PieceSound(s', i, s'.active[i]) {
      assert PieceSound(s, i, s.active[i]);
    }
  }

  /** Received: the new state, whether the piece is complete, and whether the block was wanted. */
  function Received(s: State, index: int, begin: int, length: int): (r: (State, bool, bool)) {
    if index !in s.active then (s, false, false)
    else
      var pp := s.active[index];
      match BlockIndexOf(pp, begin, length)
      case None => (s, false, false)
      case Some(i) =>
        if pp.states[i] == Delivered then (s, false, false)
        else
          var pp' := pp.(states := pp.states[i := Delivered], done := pp.done + 1);
          (s.(active := s.active[index := pp']), Complete(pp'), true)
  }

  /** A block is wanted exactly when it is a real block not yet counted; then it is counted, and nothing else changes. */
  lemma {:induction false} ReceivedCountsOnce(s: State, index: int, begin: int, length: int)
    requires Valid(s)
    ensures var (s', completed, wanted) := Received(s, index, begin, length);
            && Valid(s') && NoNewWork(s, s')
            && (wanted <==> exists b: nat :: index in s.active && ToDo(s, index, b) && Request(index, begin, length) == BlockRequest(index, s.cfg.lengths[index], b))
            && (wanted ==> forall i, b :: ToDo(s', i, b) <==> ToDo(s, i, b) && !(i == index && b == begin / BLOCK_LENGTH))
            && (wanted ==> s'.active[index].done == s.active[index].done + 1)
            && (!wanted ==> s' == s && !completed)
            && (completed <==> wanted && forall b :: !ToDo(s', index, b))
            && (wanted ==> s' == s.(active := s'.active) && s'.active.Keys == s.active.Keys)
  {
    hide BlockCount, BlockRequest, BlockIndexOf;
    var (s', completed, wanted) := Received(s, index, begin, length);
    if index in s.active {
      var pp := s.active[index];
      assert PieceSound(s, index, pp);
      forall b: nat | b < |pp.states| && Request(index, begin, length) == BlockRequest(index, pp.length, b)
        ensures BlockIndexOf(pp, begin, length) == Some(b)
      {
        BlockIndexOfIsInverse(pp, begin, length, b);
      }
      match BlockIndexOf(pp, begin, length) {
        case None =>
        case Some(i) =>
          BlockIndexOfIsInverse(pp, begin, length, i);
          IndexOfDivides(pp, begin, length, i);
          CountDoneUpdate(pp.states, i, Delivered);
          if wanted {
            var pp' := s'.active[index];
            CompleteIffAllDelivered(pp'.states);
            ReplaceKeeps(s, index, pp');
            forall b | 0 <= b < |pp'.states| ensures ToDo(s', index, b) <==> pp'.states[b] != Delivered {
            }
          }
      }
    }
  }

  lemma {:induction false} IndexOfDivides(pp: Progress, begin: int, length: int, i: nat)
    requires BlockIndexOf(pp, begin, length) == Some(i)
    ensures i == begin / BLOCK_LENGTH && i < |pp.states|
  {
  }

  /** Replacing one piece in progress by a sound successor keeps everything else. */
  lemma {:induction false} ReplaceKeeps(s: State, index: int, pp': Progress)
    requires Valid(s) && index in s.active && PieceSound(s, index, pp')
    ensures Valid(s.(active := s.active[index := pp']))
  {
    var s' := s.(active := s.active[index := pp']);
    assert s'.active.Keys == s.active.Keys;
    FewerKeys(s'.active, s.active);
    forall i | i in s'.active ensures PieceSound(s', i, s'.active[i]) {
      assert PieceSound(s, i, s.active[i]);
    }
  }

  function SetHave(s: State, have: set<int>): (s': State) {
    s.(have := have, active := s.active - have)
  }

  /** Seeding from resume data keeps the state sound; it adds no work exactly when it forgets no piece with blocks. */
  lemma {:induction false} SetHaveKeeps(s: State, have: set<int>)
    requires Valid(s) && forall i :: i in have ==> IsPiece(s, i)
    ensures var s' := SetHave(s, have);
            && Valid(s')
            && (NoNewWork(s, s') <==> forall i :: i in s.have && i !in have ==> BlockCount(s.cfg.lengths[i]) == 0)
  {
    hide BlockCount;
    var s' := SetHave(s, have);
    FewerKeys(s'.active, s.active);
    forall i | i in s'.active ensures PieceSound(s', i, s'.active[i]) {
      assert PieceSound(s, i, s.active[i]);
    }
    forall i | i in s.have && i !in have && BlockCount(s.cfg.lengths[i]) > 0 ensures !NoNewWork(s, s') {
      assert ToDo(s', i, 0) && !ToDo(s, i, 0);
    }
    if forall i :: i in s.have && i !in have ==> BlockCount(s.cfg.lengths[i]) == 0 {
      forall i, b | ToDo(s', i, b) ensures ToDo(s, i, b) {
        assert i in s.active ==> i in s'.active;
      }
    }
  }

  function SetPriorities(s: State, pr: seq<Priority>): (s': State) {
    s.(priority := Some(pr))
  }

  /** Returning a block to needed. */
  ghost predicate Released(pp: Progress, pp': Progress, which: set<nat>) {
    && |pp'.states| == |pp.states|
    && pp' == pp.(states := pp'.states)
    && forall i: nat :: i < |pp.states| ==> pp'.states[i] == if i in which then Needed else pp.states[i]
  }

  predicate IsPending(s: State, i: int, b: nat) {
    i in s.active && b < |s.active[i].states| && s.active[i].states[b] == Pending
  }

  /** Exactly the blocks of `which` go back to needed. */
  ghost predicate Releases(s: State, s': State, which: set<(int, nat)>) {
    && s' == s.(active := s'.active) && s'.active.Keys == s.active.Keys
    && forall i :: i in s.active ==> Released(s.active[i], s'.active[i], set b: nat | b < |s.active[i].states| && (i, b) in which)
  }

  lemma {:induction false} ReleasedKeeps(pp: Progress, pp': Progress, which: set<nat>)
    requires Sound(pp) && Released(pp, pp', which)
    requires forall b :: b in which && b < |pp.states| ==> pp.states[b] == Pending
    ensures Sound(pp') && forall b :: 0 <= b < |pp.states| ==> (pp'.states[b] == Delivered <==> pp.states[b] == Delivered)
  {
    CountDoneSame(pp.states, pp'.states);
  }

  lemma {:induction false} ReleasesKeeps(s: State, s': State, which: set<(int, nat)>)
    requires Valid(s) && Releases(s, s', which)
    requires forall i, b :: (i, b) in which ==> IsPending(s, i, b)
    ensures Valid(s') && NoNewWork(s, s')
    ensures forall i, b :: ToDo(s, i, b) ==> ToDo(s', i, b)
  {
    hide BlockCount;
    FewerKeys(s'.active, s.active);
    forall i | i in s.active
      ensures PieceSound(s', i, s'.active[i])
      ensures forall b :: 0 <= b < |s.active[i].states| ==> (s'.active[i].states[b] == Delivered <==> s.active[i].states[b] == Delivered)
      ensures |s'.active[i].states| == |s.active[i].states|
    {
      assert PieceSound(s, i, s.active[i]);
      var w := set b: nat | b < |s.active[i].states| && (i, b) in which;
      assert forall b :: b in w ==> IsPending(s, i, b);
      ReleasedKeeps(s.active[i], s'.active[i], w);
    }
  }

  // ---------- choosing a piece to start ----------

  /** A piece that a peer could let us start. */
  predicate Pickable(s: State, peer: set<int>, i: int)
    requires Valid(s)
  {
    && IsPiece(s, i) && i !in s.have && i !in s.active && i in peer && Tier(s, i) != Skip
    && (s.strategy == RarestFirst ==> s.avail[i] > 0)
  }

  function Rank(p: Priority): (n: nat) {
    match p case Skip => 0 case Low => 1 case Normal => 2 case High => 3
  }

  /** i is a strictly better piece to start than j: a higher tier, or the same tier and rarer, or earlier. */
  predicate Better(s: State, i: int, j: int)
    requires Valid(s) && IsPiece(s, i) && IsPiece(s, j)
  {
    || Rank(Tier(s, i)) > Rank(Tier(s, j))
    || (Tier(s, i) == Tier(s, j) && if s.strategy == Sequential then i < j else s.avail[i] < s.avail[j])
  }

  /** nextPiece's answer: a best pickable piece, or none when nothing is pickable. */
  ghost predicate IsNext(s: State, peer: set<int>, r: Option<int>)
    requires Valid(s)
  {
    match r
    case None => forall i :: IsPiece(s, i) ==> !Pickable(s, peer, i)
    case Some(n) => Pickable(s, peer, n) && forall i :: IsPiece(s, i) && Pickable(s, peer, i) ==> !Better(s, i, n)
  }

  function Start(s: State, index: int): (s': State)
    requires Valid(s) && IsPiece(s, index)
  {
    s.(active := s.active[index := Started(index, s.cfg.lengths[index])])
  }

  // ---------- Pick ----------

  /** A block's state, whether or not its piece has been started. */
  function BlockAt(s: State, i: int, b: nat): (st: BlockState) {
    if i in s.active && b < |s.active[i].states| then s.active[i].states[b] else Needed
  }

  /** A request for a whole block of a piece in progress. */
  ghost predicate ForBlock(s: State, r: Request) {
    && r.index in s.active && IsPiece(s, r.index) && 0 <= r.begin && r.begin / BLOCK_LENGTH < |s.active[r.index].states|
    && r == BlockRequest(r.index, s.cfg.lengths[r.index], r.begin / BLOCK_LENGTH)
  }

  /** Compared with s0, the pieces in progress changed exactly where the requests `out` say. */
  ghost predicate AskedFor(s0: State, endgame: bool, now: int, s: State, out: seq<Request>)
    requires Valid(s)
  {
    forall i, b: nat :: i in s.active && b < |s.active[i].states| ==>
      if BlockRequest(i, s.cfg.lengths[i], b) in out
      then Free(BlockAt(s0, i, b), endgame) && s.active[i].states[b] == Pending && s.active[i].requested[b] == now
      else && s.active[i].states[b] == BlockAt(s0, i, b)
           && (i in s0.active && b < |s0.active[i].requested| ==> s.active[i].requested[b] == s0.active[i].requested[b])
  }

  /** Every newly started piece was pickable, and no piece left unstarted is better. */
  ghost predicate StartedBest(s0: State, peer: set<int>, s: State)
    requires Valid(s0)
  {
    forall n :: n in s.active && n !in s0.active ==>
      && Pickable(s0, peer, n)
      && forall j :: IsPiece(s0, j) && Pickable(s0, peer, j) && j !in s.active ==> !Better(s0, j, n)
  }

  ghost predicate AllDistinct(out: seq<Request>) {
    forall k, l :: 0 <= k < l < |out| ==> out[k] != out[l]
  }

  /** A Pick call under way: what it has asked for so far. */
  ghost predicate Picking(s0: State, peer: set<int>, max: int, now: int, endgame: bool, s: State, out: seq<Request>) {
    && Valid(s0) && Valid(s) && s == s0.(active := s.active) && s0.active.Keys <= s.active.Keys
    && |out| <= max && AllDistinct(out)
    && (forall r :: r in out ==> ForBlock(s, r) && r.index in peer)
    && AskedFor(s0, endgame, now, s, out)
    && StartedBest(s0, peer, s)
  }

  /** No block of the piece is waiting, and in endgame whatever has not arrived has been asked for. */
  ghost predicate Offered(s: State, out: seq<Request>, endgame: bool, i: int) {
    i in s.active && IsPiece(s, i) &&
    forall b: nat :: b < |s.active[i].states| ==>
      && s.active[i].states[b] != Needed
      && (endgame && s.active[i].states[b] != Delivered ==> BlockRequest(i, s.cfg.lengths[i], b) in out)
  }

  /** So for every piece in progress that the peer has. */
  ghost predicate Drained(s: State, peer: set<int>, out: seq<Request>, endgame: bool) {
    forall i :: i in s.active && i in peer ==> Offered(s, out, endgame, i)
  }

  /** The contract of Pick. */
  ghost predicate Picked(s0: State, peer: set<int>, max: int, now: int, s: State, out: seq<Request>) {
    Valid(s0) &&
    if max <= 0 || Finished(s0) then s == s0 && out == []
    else
      && Picking(s0, peer, max, now, InEndgame(s0), s, out)
      && (|out| < max ==> Drained(s, peer, out, InEndgame(s0)) && (|s.active| >= s.cfg.maxActive || IsNext(s, peer, None)))
  }

  lemma {:induction false} PickingStarts(s: State, peer: set<int>, max: int, now: int, endgame: bool)
    requires Valid(s) && max > 0
    ensures Picking(s, peer, max, now, endgame, s, [])
  {
  }

  lemma {:induction false} RequestFields(index: int, length: nat, b: nat)
    ensures var r := BlockRequest(index, length, b); r.index == index && r.begin >= 0 && r.begin / BLOCK_LENGTH == b
  {
  }

  /** One piece filled. */
  lemma {:induction false} PickingFills(s0: State, peer: set<int>, max: int, now: int, endgame: bool, s: State, out: seq<Request>,
                                        index: int, pp': Progress, reqs: seq<Request>)
    requires Picking(s0, peer, max, now, endgame, s, out) && index in s.active && index in peer
    requires forall r :: r in out ==> r.index != index
    requires Filled(s.active[index], pp', reqs, max - |out|, now, endgame)
    ensures Picking(s0, peer, max, now, endgame, s.(active := s.active[index := pp']), out + reqs)
    ensures forall r :: r in out + reqs ==> r in out || r.index == index
    ensures |out + reqs| < max ==> Offered(s.(active := s.active[index := pp']), out + reqs, endgame, index)
  {
    hide BlockRequest, BlockCount, Better, Pickable, AskedFor, StartedBest;
    var pp := s.active[index];
    assert PieceSound(s, index, pp);
    var s', out' := s.(active := s.active[index := pp']), out + reqs;
    ReplaceKeeps(s, index, pp');
    forall r | r in reqs ensures ForBlock(s', r) && r.index == index {
      var b :| 0 <= b < |pp.states| && r == BlockRequest(pp.index, pp.length, b);
      RequestFields(index, pp.length, b);
    }
    AskedFills(s0, now, endgame, s, out, index, pp', reqs, max - |out|);
    StartedBestSame(s0, peer, s, s');
  }

  lemma {:induction false} StartedBestSame(s0: State, peer: set<int>, s: State, s': State)
    requires Valid(s0) && StartedBest(s0, peer, s) && s'.active.Keys == s.active.Keys
    ensures StartedBest(s0, peer, s')
  {
    hide Better, Pickable;
  }

  lemma {:induction false} AskedFills(s0: State, now: int, endgame: bool, s: State, out: seq<Request>,
                                      index: int, pp': Progress, reqs: seq<Request>, room: nat)
    requires Valid(s) && AskedFor(s0, endgame, now, s, out) && index in s.active
    requires forall r :: r in out ==> r.index != index
    requires forall r :: r in reqs ==> r.index == index
    requires Filled(s.active[index], pp', reqs, room, now, endgame)
    ensures AskedFor(s0, endgame, now, s.(active := s.active[index := pp']), out + reqs)
  {
    hide BlockRequest, BlockCount, BlockAt, Tier;
    var pp := s.active[index];
    var s', out' := s.(active := s.active[index := pp']), out + reqs;
    assert PieceSound(s, index, pp);
    ReplaceKeeps(s, index, pp');
    hide Valid, Sound;
    forall i, b: nat | i in s'.active && b < |s'.active[i].states|
      ensures var r := BlockRequest(i, s'.cfg.lengths[i], b);
              r in out' <==> if i == index then r in reqs else r in out
    {
      RequestFields(i, s.cfg.lengths[i], b);
    }
  }

  /** One piece started. */
  lemma {:induction false} PickingStartsPiece(s0: State, peer: set<int>, max: int, now: int, endgame: bool, s: State, out: seq<Request>, n: int)
    requires Picking(s0, peer, max, now, endgame, s, out) && IsNext(s, peer, Some(n)) && |s.active| < s.cfg.maxActive
    ensures Picking(s0, peer, max, now, endgame, Start(s, n), out) && forall r :: r in out ==> r.index != n
  {
    hide BlockRequest, BlockCount, Better, Pickable, IsNext, AskedFor, StartedBest;
    NextIsPickable(s, peer, n);
    var s' := Start(s, n);
    StartKeepsValid(s, n);
    AskedStarts(s0, endgame, now, s, out, n);
    BestStarts(s0, peer, s, n);
  }

  lemma {:induction false} NextIsPickable(s: State, peer: set<int>, n: int)
    requires Valid(s) && IsNext(s, peer, Some(n))
    ensures IsPiece(s, n) && n !in s.have && n !in s.active && n in peer
  {
  }

  lemma {:induction false} StartKeepsValid(s: State, n: int)
    requires Valid(s) && IsPiece(s, n) && n !in s.have && n !in s.active && |s.active| < s.cfg.maxActive
    ensures Valid(Start(s, n))
  {
    hide BlockCount;
    var s' := Start(s, n);
    assert s'.active.Keys == s.active.Keys + {n};
    assert |s'.active| == |s'.active.Keys|;
    assert |s.active| == |s.active.Keys|;
    forall i | i in s'.active ensures PieceSound(s', i, s'.active[i]) {
      if i != n {
        assert PieceSound(s, i, s.active[i]);
      }
    }
  }

  lemma {:induction false} AskedStarts(s0: State, endgame: bool, now: int, s: State, out: seq<Request>, n: int)
    requires Valid(s) && IsPiece(s, n) && Valid(Start(s, n)) && AskedFor(s0, endgame, now, s, out)
    requires n !in s.active && n !in s0.active && forall r :: r in out ==> r.index in s.active
    ensures AskedFor(s0, endgame, now, Start(s, n), out)
  {
    hide BlockRequest, BlockCount, Valid, Sound;
    var s' := Start(s, n);
    forall b: nat | b < |s'.active[n].states| ensures BlockRequest(n, s.cfg.lengths[n], b) !in out {
      RequestFields(n, s.cfg.lengths[n], b);
    }
  }

  lemma {:induction false} BestStarts(s0: State, peer: set<int>, s: State, n: int)
    requires Valid(s0) && Valid(s) && s == s0.(active := s.active) && s0.active.Keys <= s.active.Keys
    requires StartedBest(s0, peer, s) && IsNext(s, peer, Some(n))
    ensures StartedBest(s0, peer, Start(s, n))
  {
    var s' := Start(s, n);
    hide Valid, Sound, Started;
    assert forall i :: IsPiece(s, i) && Pickable(s0, peer, i) && i !in s.active ==> Pickable(s, peer, i);
  }

  // ---------- what follows ----------

  /** Every request is for a block not yet received, of a piece missing here and held by the peer; outside endgame, one nobody was asked for. */
  lemma {:induction false} PickAsksForMissingBlocks(s0: State, peer: set<int>, max: int, now: int, s: State, out: seq<Request>)
    requires Picked(s0, peer, max, now, s, out)
    ensures max >= 0 ==> |out| <= max
    ensures AllDistinct(out)
    ensures forall r :: r in out ==>
              var b := r.begin / BLOCK_LENGTH;
              && IsPiece(s0, r.index) && r.index !in s0.have && r.index in peer && 0 <= r.begin
              && b < BlockCount(s0.cfg.lengths[r.index]) && r == BlockRequest(r.index, s0.cfg.lengths[r.index], b)
              && BlockAt(s0, r.index, b) != Delivered && (|Missing(s0)| > s0.cfg.endgameThreshold ==> BlockAt(s0, r.index, b) == Needed)
  {
    hide BlockCount, BlockRequest, StartedBest, Missing, Tier;
    forall r | r in out
      ensures var b := r.begin / BLOCK_LENGTH;
              && r.index !in s0.have && b < BlockCount(s0.cfg.lengths[r.index]) && Free(BlockAt(s0, r.index, b), InEndgame(s0))
    {
      assert ForBlock(s, r) && PieceSound(s, r.index, s.active[r.index]);
    }
  }

  /** The peer could have let us start j, and Pick did not. */
  ghost predicate LeftOut(s: State, peer: set<int>, j: int) {
    0 <= j < |s.cfg.lengths| && j !in s.have && j !in s.active && j in peer && (s.strategy == RarestFirst ==> j < |s.avail| && s.avail[j] > 0)
  }

  ghost predicate HasPriority(s: State, i: int, p: Priority) {
    match s.priority
    case None => p == Normal
    case Some(ps) => 0 <= i < |ps| && ps[i] == p
  }

  /** With room to spare, every block of a piece in progress that the peer has and nobody was asked for is asked for; in endgame every one that has not arrived. */
  lemma {:induction false} PickLeavesNothing(s0: State, peer: set<int>, max: int, now: int, s: State, out: seq<Request>, i: int, b: nat)
    requires Picked(s0, peer, max, now, s, out) && |out| < max && |Missing(s0)| > 0
    requires i in s0.active && i in peer && b < |s0.active[i].states|
    requires s0.active[i].states[b] == Needed || (s0.active[i].states[b] == Pending && |Missing(s0)| <= s0.cfg.endgameThreshold)
    ensures i < |s0.cfg.lengths| && BlockRequest(i, s0.cfg.lengths[i], b) in out
  {
    hide BlockRequest, BlockCount, StartedBest, Missing, Tier, IsNext;
    assert PieceSound(s0, i, s0.active[i]) && PieceSound(s, i, s.active[i]);
    assert Offered(s, out, InEndgame(s0), i);
  }

  /** Each piece that Pick starts was missing, wanted and on offer; pieces left unstarted are of no higher priority, and within one of no lesser rarity, or later. */
  lemma {:induction false} PickStartsFirst(s0: State, peer: set<int>, max: int, now: int, s: State, out: seq<Request>, n: int)
    requires Picked(s0, peer, max, now, s, out) && n in s.active && n !in s0.active
    ensures 0 <= n < |s0.cfg.lengths| && n !in s0.have && n in peer && !HasPriority(s0, n, Skip)
    ensures s0.strategy == RarestFirst ==> 0 < s0.avail[n]
    ensures forall j :: LeftOut(s, peer, j) && HasPriority(s0, j, High) ==> HasPriority(s0, n, High)
    ensures forall j :: LeftOut(s, peer, j) && HasPriority(s0, j, Normal) ==> !HasPriority(s0, n, Low)
    ensures s0.strategy == RarestFirst ==>
              forall j, p :: LeftOut(s, peer, j) && HasPriority(s0, j, p) && HasPriority(s0, n, p) ==> s0.avail[n] <= s0.avail[j]
    ensures s0.strategy == Sequential ==>
              forall j, p :: LeftOut(s, peer, j) && HasPriority(s0, j, p) && HasPriority(s0, n, p) ==> n < j
  {
    hide Sound, AskedFor, Drained, InEndgame, Missing, BlockCount, IsNext;
    assert Pickable(s0, peer, n) && HasPriority(s0, n, Tier(s0, n));
    forall j | LeftOut(s, peer, j) && !HasPriority(s0, j, Skip) ensures !Better(s0, j, n) && HasPriority(s0, j, Tier(s0, j)) {
      assert IsPiece(s0, j) && Pickable(s0, peer, j);
    }
  }

  /** So for the piece that nextPiece names; it names none only when there is none. */
  lemma {:induction false} NextIsFirst(s: State, peer: set<int>, r: Option<int>)
    requires Valid(s) && IsNext(s, peer, r)
    ensures r.None? ==> forall j :: LeftOut(s, peer, j) ==> HasPriority(s, j, Skip)
    ensures r.Some? ==>
              var n := r.value;
              && LeftOut(s, peer, n) && !HasPriority(s, n, Skip)
              && (forall j :: LeftOut(s, peer, j) && HasPriority(s, j, High) ==> HasPriority(s, n, High))
              && (forall j :: LeftOut(s, peer, j) && HasPriority(s, j, Normal) ==> !HasPriority(s, n, Low))
              && (s.strategy == RarestFirst ==>
                   forall j, p :: LeftOut(s, peer, j) && HasPriority(s, j, p) && HasPriority(s, n, p) ==> s.avail[n] <= s.avail[j])
              && (s.strategy == Sequential ==>
                   forall j, p :: LeftOut(s, peer, j) && HasPriority(s, j, p) && HasPriority(s, n, p) ==> n <= j)
  {
    forall j | LeftOut(s, peer, j) && !HasPriority(s, j, Skip)
      ensures r.Some? && !Better(s, j, r.value) && HasPriority(s, j, Tier(s, j))
    {
      assert IsPiece(s, j) && Pickable(s, peer, j);
    }
    if r.Some? {
      assert Pickable(s, peer, r.value) && HasPriority(s, r.value, Tier(s, r.value));
    }
  }

  /** Picking changes no piece's remaining work. */
  lemma {:induction false} PickKeepsWork(s0: State, peer: set<int>, max: int, now: int, s: State, out: seq<Request>)
    requires Picked(s0, peer, max, now, s, out)
    ensures Valid(s) && NoNewWork(s0, s) && NoNewWork(s, s0)
  {
    hide BlockCount, BlockRequest, StartedBest, InEndgame, Finished, Tier, Better, Pickable, IsNext, Drained, ForBlock, AllDistinct;
    forall i, b: nat | i in s.active && b < |s.active[i].states|
      ensures s.active[i].states[b] == Delivered <==> BlockAt(s0, i, b) == Delivered
    {
    }
    assert forall i :: i in s.active ==> PieceSound(s, i, s.active[i]);
    assert forall i :: i in s0.active ==> PieceSound(s0, i, s0.active[i]);
  }

  /** A block counted once is not counted again for as long as no work is added: until its piece fails. */
  lemma {:induction false} CountedOnce(s: State, later: State, index: int, begin: int, length: int)
    requires Valid(s) && Valid(later)
    requires Received(s, index, begin, length).2 && NoNewWork(Received(s, index, begin, length).0, later)
    ensures !Received(later, index, begin, length).2
  {
    hide BlockCount, Received, Valid, ToDo;
    ReceivedCountsOnce(s, index, begin, length);
    ReceivedCountsOnce(later, index, begin, length);
    forall b: nat | IsPiece(later, index) && Request(index, begin, length) == BlockRequest(index, later.cfg.lengths[index], b)
      ensures !ToDo(later, index, b)
    {
      RequestFields(index, later.cfg.lengths[index], b);
    }
  }
}
