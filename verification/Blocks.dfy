/** The blocks of one piece in progress: pieceProgress of internal/picker/picker.go. */
module Blocks {
  import opened Bytes

  const BLOCK_LENGTH := 16384

  datatype BlockState = Needed | Pending | Delivered

  datatype Request = Request(index: int, begin: int, length: int)

  /** A piece being downloaded; times are counted from any fixed origin. */
  datatype Progress = Progress(index: int, length: nat, states: seq<BlockState>, requested: seq<int>, done: nat)

  function BlockCount(length: nat): (n: nat) {
    (length + BLOCK_LENGTH - 1) / BLOCK_LENGTH
  }

  function BlockLength(length: nat, i: nat): (n: int) {
    Min(BLOCK_LENGTH, length - i * BLOCK_LENGTH)
  }

  function BlockRequest(index: int, length: nat, i: nat): (r: Request) {
    Request(index, i * BLOCK_LENGTH, BlockLength(length, i))
  }

  /** The blocks tile [0, length): each byte lies in one block and in no other. */
  lemma {:induction false} BlocksTile(length: nat, x: nat)
    requires x < length
    ensures x / BLOCK_LENGTH < BlockCount(length)
    ensures forall i: nat :: i < BlockCount(length) ==>
              var r := BlockRequest(0, length, i);
              0 <= r.begin && 0 < r.length && r.begin + r.length <= length && (r.begin <= x < r.begin + r.length <==> i == x / BLOCK_LENGTH)
  {
  }

  // ---------- counting ----------

  function CountDone(states: seq<BlockState>): (n: nat)
    ensures n <= |states|
  {
    if states == [] then 0 else (if states[0] == Delivered then 1 else 0) + CountDone(states[1..])
  }

  lemma {:induction false} CountDoneUpdate(states: seq<BlockState>, i: nat, b: BlockState)
    requires i < |states|
    ensures CountDone(states[i := b]) - (if b == Delivered then 1 else 0) == CountDone(states) - (if states[i] == Delivered then 1 else 0)
  {
    if i > 0 {
      CountDoneUpdate(states[1..], i - 1, b);
      assert states[i := b][1..] == states[1..][i - 1 := b];
    } else {
      assert states[i := b][1..] == states[1..];
    }
  }

  lemma {:induction false} CountDoneSame(states: seq<BlockState>, states': seq<BlockState>)
    requires |states| == |states'| && forall i :: 0 <= i < |states| ==> (states[i] == Delivered <==> states'[i] == Delivered)
    ensures CountDone(states) == CountDone(states')
    decreases |states|
  {
    if states != [] {
      forall i | 0 <= i < |states[1..]| ensures states[1..][i] == Delivered <==> states'[1..][i] == Delivered {
        assert states[1..][i] == states[i + 1] && states'[1..][i] == states'[i + 1];
      }
      CountDoneSame(states[1..], states'[1..]);
    }
  }

  /** The counter reaches the number of blocks exactly when every block is there. */
  lemma {:induction false} CompleteIffAllDelivered(states: seq<BlockState>)
    ensures CountDone(states) == |states| <==> forall i :: 0 <= i < |states| ==> states[i] == Delivered
  {
    if states != [] {
      CompleteIffAllDelivered(states[1..]);
      assert forall i :: 0 < i < |states| ==> states[i] == states[1..][i - 1];
    }
  }

  lemma {:induction false} NoneDone(states: seq<BlockState>)
    requires forall i :: 0 <= i < |states| ==> states[i] != Delivered
    ensures CountDone(states) == 0
  {
    if states != [] {
      assert forall i :: 0 <= i < |states[1..]| ==> states[1..][i] == states[i + 1];
      NoneDone(states[1..]);
    }
  }

  /** What holds of a piece in progress at all times. */
  ghost predicate Sound(pp: Progress) {
    |pp.states| == |pp.requested| == BlockCount(pp.length) && pp.done == CountDone(pp.states)
  }

  predicate Complete(pp: Progress) {
    pp.done == |pp.states|
  }

  /** Picker.start. */
  function Started(index: int, length: nat): (pp: Progress)
    ensures Sound(pp) && pp.index == index && pp.length == length
    ensures forall i :: 0 <= i < |pp.states| ==> pp.states[i] == Needed
  {
    var n := BlockCount(length);
    var states := seq(n, i => Needed);
    NoneDone(states);
    Progress(index, length, states, seq(n, i => 0), 0)
  }

  // ---------- locating a block ----------

  function BlockIndexOf(pp: Progress, begin: int, length: int): (i: Option<nat>) {
    if begin < 0 || begin % BLOCK_LENGTH != 0 then None
    else
      var i := begin / BLOCK_LENGTH;
      if i >= |pp.states| || length != BlockLength(pp.length, i) then None else Some(i)
  }

  /** blockIndexOf undoes the Begin and Length that fill computes, and accepts nothing else. */
  lemma {:induction false} BlockIndexOfIsInverse(pp: Progress, begin: int, length: int, i: nat)
    ensures BlockIndexOf(pp, begin, length) == Some(i)
       <==> i < |pp.states| && Request(pp.index, begin, length) == BlockRequest(pp.index, pp.length, i)
  {
  }

  // ---------- handing out blocks ----------

  predicate Free(b: BlockState, endgame: bool) {
    b == Needed || (b == Pending && endgame)
  }

  /** The blocks that may be asked for, in order. */
  function Eligible(states: seq<BlockState>, endgame: bool): (e: seq<nat>) {
    if states == [] then []
    else
      var i := |states| - 1;
      Eligible(states[..i], endgame) + if Free(states[i], endgame) then [i] else []
  }

  lemma {:induction false} EligibleMeans(states: seq<BlockState>, endgame: bool)
    ensures var e := Eligible(states, endgame);
            && (forall i :: 0 <= i < |states| && Free(states[i], endgame) ==> i in e)
            && (forall k :: 0 <= k < |e| ==> e[k] < |states| && Free(states[e[k]], endgame))
            && (forall k, l :: 0 <= k < l < |e| ==> e[k] < e[l])
    decreases |states|
  {
    if states != [] {
      var n := |states| - 1;
      EligibleMeans(states[..n], endgame);
      var e0, e := Eligible(states[..n], endgame), Eligible(states, endgame);
      forall i | 0 <= i < |states| && Free(states[i], endgame) ensures i in e {
        if i < n {
          assert states[..n][i] == states[i];
          assert i in e0;
        } else {
          assert e[|e| - 1] == i;
        }
      }
      forall k | 0 <= k < |e| ensures e[k] < |states| && Free(states[e[k]], endgame) {
        if k < |e0| {
          assert e[k] == e0[k] && states[..n][e0[k]] == states[e0[k]];
        }
      }
    }
  }

  lemma {:induction false} EligiblePrefix(states: seq<BlockState>, endgame: bool, i: nat)
    requires i <= |states|
    ensures Eligible(states[..i], endgame) <= Eligible(states, endgame)
    decreases |states|
  {
    if i < |states| {
      var n := |states| - 1;
      EligiblePrefix(states[..n], endgame, i);
      assert states[..n][..i] == states[..i];
    } else {
      assert states[..i] == states;
    }
  }

  /** The blocks that fill hands out with `room` requests left. */
  function Taken(pp: Progress, room: nat, endgame: bool): (t: seq<nat>) {
    var e := Eligible(pp.states, endgame);
    e[..Min(room, |e|)]
  }

  function MarkPending(pp: Progress, taken: seq<nat>, now: int): (pp': Progress)
    requires |pp.states| == |pp.requested|
  {
    pp.(states := seq(|pp.states|, i requires 0 <= i < |pp.states| => if i in taken then Pending else pp.states[i]),
        requested := seq(|pp.states|, i requires 0 <= i < |pp.states| => if i in taken then now else pp.requested[i]))
  }

  function Requests(pp: Progress, taken: seq<nat>): (reqs: seq<Request>)
    ensures |reqs| == |taken|
  {
    if taken == [] then []
    else Requests(pp, taken[..|taken| - 1]) + [BlockRequest(pp.index, pp.length, taken[|taken| - 1])]
  }

  lemma {:induction false} RequestsAt(pp: Progress, taken: seq<nat>, k: nat)
    requires k < |taken|
    ensures Requests(pp, taken)[k] == BlockRequest(pp.index, pp.length, taken[k])
    decreases |taken|
  {
    if k < |taken| - 1 {
      RequestsAt(pp, taken[..|taken| - 1], k);
    }
  }

  lemma {:induction false} FillNothing(pp: Progress, endgame: bool, now: int)
    requires |pp.states| == |pp.requested|
    ensures Eligible([], endgame) == [] && MarkPending(pp, [], now) == pp && Requests(pp, []) == []
  {
    var pp' := MarkPending(pp, [], now);
    assert pp'.states == pp.states && pp'.requested == pp.requested;
  }

  lemma {:induction false} RequestsSnoc(pp: Progress, taken: seq<nat>, i: nat)
    ensures Requests(pp, taken + [i]) == Requests(pp, taken) + [BlockRequest(pp.index, pp.length, i)]
  {
    assert (taken + [i])[..|taken|] == taken;
  }

  /** The free blocks among the first i are what fill takes once there is no room left, or nothing more to see. */
  lemma {:induction false} TakenSoFar(pp: Progress, i: nat, room: nat, endgame: bool)
    requires i <= |pp.states| && |Eligible(pp.states[..i], endgame)| <= room
    requires i == |pp.states| || |Eligible(pp.states[..i], endgame)| == room
    ensures Taken(pp, room, endgame) == Eligible(pp.states[..i], endgame)
  {
    EligiblePrefix(pp.states, endgame, i);
    if i == |pp.states| {
      assert pp.states[..i] == pp.states;
    }
  }

  /** The loop body of fill on block i. */
  lemma {:induction false} FillStep(pp: Progress, i: nat, endgame: bool, now: int, t: seq<nat>, cur: Progress)
    requires |pp.states| == |pp.requested| && i < |pp.states|
    requires t == Eligible(pp.states[..i], endgame) && cur == MarkPending(pp, t, now)
    ensures cur.index == pp.index && cur.length == pp.length
    ensures i !in t && cur.states[i] == pp.states[i] && |cur.states| == |cur.requested| == |pp.states|
    ensures Eligible(pp.states[..i + 1], endgame) == t + if Free(pp.states[i], endgame) then [i] else []
    ensures cur.(states := cur.states[i := Pending], requested := cur.requested[i := now]) == MarkPending(pp, t + [i], now)
  {
    EligibleMeans(pp.states[..i], endgame);
    assert pp.states[..i + 1][..i] == pp.states[..i];
    var next, want := cur.(states := cur.states[i := Pending], requested := cur.requested[i := now]), MarkPending(pp, t + [i], now);
    forall j | 0 <= j < |pp.states| ensures next.states[j] == want.states[j] && next.requested[j] == want.requested[j] {
      assert j in t + [i] <==> j in t || j == i;
    }
    assert next.states == want.states && next.requested == want.requested;
  }

  /** What fill does to a piece: hands out free blocks in order, each once, as many as there is room for. */
  ghost predicate Filled(pp: Progress, pp': Progress, reqs: seq<Request>, room: nat, now: int, endgame: bool) {
    && Sound(pp) && Sound(pp') && pp' == pp.(states := pp'.states, requested := pp'.requested)
    && |reqs| <= room
    && (forall i :: 0 <= i < |pp.states| ==>
         if BlockRequest(pp.index, pp.length, i) in reqs
         then Free(pp.states[i], endgame) && pp'.states[i] == Pending && pp'.requested[i] == now
         else pp'.states[i] == pp.states[i] && pp'.requested[i] == pp.requested[i])
    && (forall r :: r in reqs ==> exists i :: 0 <= i < |pp.states| && r == BlockRequest(pp.index, pp.length, i))
    && (forall k, l :: 0 <= k < l < |reqs| ==> reqs[k] != reqs[l])
    && (|reqs| < room ==> forall i :: 0 <= i < |pp'.states| ==> pp'.states[i] != Needed)
    && (|reqs| < room ==> forall i :: 0 <= i < |pp.states| && Free(pp.states[i], endgame) ==> BlockRequest(pp.index, pp.length, i) in reqs)
  }

  lemma {:induction false} RequestsMembers(pp: Progress, taken: seq<nat>)
    ensures forall i: nat :: i in taken <==> BlockRequest(pp.index, pp.length, i) in Requests(pp, taken)
    ensures forall r :: r in Requests(pp, taken) ==> exists i :: i in taken && r == BlockRequest(pp.index, pp.length, i)
  {
    var reqs := Requests(pp, taken);
    forall i: nat | i in taken ensures BlockRequest(pp.index, pp.length, i) in reqs {
      var k :| 0 <= k < |taken| && taken[k] == i;
      RequestsAt(pp, taken, k);
    }
    forall r | r in reqs ensures exists i :: i in taken && r == BlockRequest(pp.index, pp.length, i) {
      var k :| 0 <= k < |reqs| && reqs[k] == r;
      RequestsAt(pp, taken, k);
      assert taken[k] in taken;
    }
  }

  lemma {:induction false} TakenMeans(pp: Progress, room: nat, endgame: bool)
    ensures var t := Taken(pp, room, endgame);
            && |t| <= room
            && (forall i :: i in t ==> i < |pp.states| && Free(pp.states[i], endgame))
            && (forall k, l :: 0 <= k < l < |t| ==> t[k] < t[l])
            && (|t| < room ==> forall i :: 0 <= i < |pp.states| && Free(pp.states[i], endgame) ==> i in t)
  {
    var t, e := Taken(pp, room, endgame), Eligible(pp.states, endgame);
    EligibleMeans(pp.states, endgame);
    forall i | i in t ensures i < |pp.states| && Free(pp.states[i], endgame) {
      var k :| 0 <= k < |t| && t[k] == i;
      assert e[k] == i;
    }
    if |t| < room {
      assert t == e;
    }
  }

  lemma {:induction false} RequestsDistinct(pp: Progress, t: seq<nat>)
    requires forall k, l :: 0 <= k < l < |t| ==> t[k] < t[l]
    ensures var reqs := Requests(pp, t); forall k, l :: 0 <= k < l < |reqs| ==> reqs[k] != reqs[l]
  {
    var reqs := Requests(pp, t);
    forall k, l | 0 <= k < l < |reqs| ensures reqs[k] != reqs[l] {
      RequestsAt(pp, t, k);
      RequestsAt(pp, t, l);
      RequestsDiffer(pp, t[k], t[l]);
    }
  }

  lemma {:induction false} FillMeans(pp: Progress, room: nat, now: int, endgame: bool)
    requires Sound(pp)
    ensures var t := Taken(pp, room, endgame);
            Filled(pp, MarkPending(pp, t, now), Requests(pp, t), room, now, endgame)
  {
    hide BlockRequest, BlockCount, Taken, Requests;
    var t := Taken(pp, room, endgame);
    var pp' := MarkPending(pp, t, now);
    TakenMeans(pp, room, endgame);
    RequestsMembers(pp, t);
    RequestsDistinct(pp, t);
    CountDoneSame(pp.states, pp'.states);
  }

  lemma {:induction false} RequestsDiffer(pp: Progress, i: nat, j: nat)
    requires i != j
    ensures BlockRequest(pp.index, pp.length, i) != BlockRequest(pp.index, pp.length, j)
  {
  }
}
