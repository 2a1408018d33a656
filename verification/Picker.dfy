/** The piece picker itself: internal/picker/picker.go and priority.go. */
module Picker {
  import opened Bytes
  import opened Blocks
  import opened PickerState
  import opened AvailabilityIndex

  /** Every tier that may be picked from, highest first. */
  const TIERS: seq<Priority> := [High, Normal, Low]

  class Picker {
    const cfg: Config
    const availability: Availability
    var have: set<int>
    var active: map<int, Progress>
    var priority: Option<seq<Priority>>
    var strategy: Strategy

    function View(): (s: State)
      reads this, availability
    {
      State(cfg, have, active, priority, strategy, availability.counts)
    }

    constructor (cfg: Config, strategy: Strategy)
      requires |cfg.lengths| > 0
      ensures Valid(View()) && fresh(availability)
      ensures View() == State(cfg, {}, map[], None, strategy, CountsOf([], |cfg.lengths|))
    {
      this.cfg, this.strategy := cfg, strategy;
      have, active, priority := {}, map[], None;
      availability := new Availability(|cfg.lengths|);
    }

    /** A picker in a given state. */
    constructor FromState(s: State)
      requires Valid(s)
      ensures View() == s && fresh(availability)
    {
      cfg, have, active, priority, strategy := s.cfg, s.have, s.active, s.priority, s.strategy;
      var a := new Availability(|s.avail|);
      a.counts := s.avail;
      availability := a;
    }

    /** SetHave, with a bitfield that covers some number of pieces; one of the wrong size is refused. */
    method SetHave(newHave: set<int>, covers: int) returns (ok: bool)
      requires Valid(View()) && forall i :: i in newHave ==> 0 <= i < covers
      modifies this
      ensures Valid(View()) && ok == (covers == |cfg.lengths|)
      ensures View() == if ok then PickerState.SetHave(old(View()), newHave) else old(View())
    {
      if covers != |cfg.lengths| {
        return false;
      }
      assert forall i :: i in newHave ==> IsPiece(View(), i);
      SetHaveKeeps(View(), newHave);
      have := newHave;
      active := active - newHave;
      ok := true;
    }

    method MarkVerified(index: int)
      requires Valid(View())
      modifies this
      ensures Valid(View()) && View() == PickerState.MarkVerified(old(View()), index)
      ensures NoNewWork(old(View()), View())
    {
      MarkVerifiedKeeps(View(), index);
      if 0 <= index < |cfg.lengths| {
        have := have + {index};
      }
      active := active - {index};
    }

    method MarkFailed(index: int)
      requires Valid(View())
      modifies this
      ensures Valid(View()) && View() == PickerState.MarkFailed(old(View()), index)
    {
      MarkFailedKeeps(View(), index);
      if index in active {
        var pp := active[index];
        for i := 0 to |pp.states|
          invariant pp == active[index].(states := pp.states) && |pp.states| == |active[index].states|
          invariant forall k :: 0 <= k < i ==> pp.states[k] == Needed
        {
          pp := pp.(states := pp.states[i := Needed]);
        }
        assert pp.states == ResetPiece(active[index]).states;
        active := active[index := pp.(done := 0)];
        return;
      }
      have := have - {index};
    }

    method Received(index: int, begin: int, length: int) returns (completed: bool, wanted: bool)
      requires Valid(View())
      modifies this
      ensures Valid(View()) && (View(), completed, wanted) == PickerState.Received(old(View()), index, begin, length)
      ensures NoNewWork(old(View()), View())
    {
      hide Valid, NoNewWork, ToDo, BlockRequest, BlockCount;
      ReceivedCountsOnce(View(), index, begin, length);
      if index !in active {
        return false, false;
      }
      var pp := active[index];
      var block := BlockIndexOf(pp, begin, length);
      if block.None? || pp.states[block.value] == Delivered {
        return false, false;
      }
      pp := pp.(states := pp.states[block.value := Delivered]);
      pp := pp.(done := pp.done + 1);
      active := active[index := pp];
      return Complete(pp), true;
    }

    method SetPriorities(pr: seq<Priority>) returns (ok: bool)
      requires Valid(View())
      modifies this
      ensures ok == (|pr| == |cfg.lengths|)
      ensures Valid(View()) && View() == if ok then PickerState.SetPriorities(old(View()), pr) else old(View())
      ensures NoNewWork(old(View()), View())
    {
      if |pr| != |cfg.lengths| {
        return false;
      }
      priority := Some(pr);
      return true;
    }

    /** The number of wanted pieces still missing. */
    method Remaining() returns (n: nat)
      requires Valid(View())
      ensures n == |Missing(View())|
    {
      if priority.None? {
        MissingWithoutPriorities(View());
        n := |cfg.lengths| - |have|;
        return;
      }
      n := 0;
      ghost var seen: set<int> := {};
      for i := 0 to |cfg.lengths|
        invariant seen == set k | 0 <= k < i && Tier(View(), k) != Skip && k !in have
        invariant n == |seen|
      {
        if priority.value[i] != Skip && i !in have {
          n := n + 1;
          seen := seen + {i};
        }
      }
      assert seen == Missing(View());
    }

    // ---------- loops over the pieces in progress ----------

    /** Expire: every request older than the timeout goes back to needed, and they are counted. */
    method Expire(now: int) returns (reset: nat)
      requires Valid(View())
      modifies this
      ensures Valid(View()) && NoNewWork(old(View()), View())
      ensures Releases(old(View()), View(), Overdue(old(View()), now)) && reset == |Overdue(old(View()), now)|
    {
      var remaining := Remaining();
      var timeout := if 0 < remaining <= cfg.endgameThreshold then cfg.endgameTimeout else cfg.requestTimeout;
      ghost var s := View();
      reset := Release(true, now, timeout);
      assert Overdue(s, now) == Outstanding(s, true, now, timeout);
      OutstandingArePending(s, true, now, timeout);
      ReleasesKeeps(s, View(), Overdue(s, now));
    }

    /** ResetAllPending: every outstanding request goes back to needed. */
    method ResetAllPending()
      requires Valid(View())
      modifies this
      ensures Valid(View()) && NoNewWork(old(View()), View())
      ensures Releases(old(View()), View(), Outstanding(old(View()), false, 0, 0))
    {
      ghost var s := View();
      var _ := Release(false, 0, 0);
      OutstandingArePending(s, false, 0, 0);
      ReleasesKeeps(s, View(), Outstanding(s, false, 0, 0));
    }

    /** The loop the two share: over the pieces in progress in any order, and over each one's blocks. */
    method Release(onlyLate: bool, now: int, timeout: int) returns (reset: nat)
      requires Valid(View())
      modifies this
      ensures Releases(old(View()), View(), Outstanding(old(View()), onlyLate, now, timeout))
      ensures reset == |Outstanding(old(View()), onlyLate, now, timeout)|
    {
      ghost var s := View();
      var order := ActiveOrder();
      NothingReleased(s, order, onlyLate, now, timeout);
      hide ReleasedAllBut, IsOrder, Valid;
      reset := 0;
      for k := 0 to |order|
        invariant ReleasedAllBut(s, View(), order[k..], onlyLate, now, timeout, reset)
      {
        assert order[k..][1..] == order[k + 1..];
        var n := ReleaseOne(order[k], onlyLate, now, timeout, s, order[k..], reset);
        reset := reset + n;
      }
      assert order[|order|..] == [];
      AllReleased(s, View(), onlyLate, now, timeout, reset);
    }

    method ReleaseOne(index: int, onlyLate: bool, now: int, timeout: int, ghost s: State, ghost order: seq<int>, ghost reset: nat)
      returns (n: nat)
      requires Valid(s) && ReleasedAllBut(s, View(), order, onlyLate, now, timeout, reset) && order != [] && order[0] == index
      modifies this
      ensures ReleasedAllBut(s, View(), order[1..], onlyLate, now, timeout, reset + n)
    {
      hide Valid, Late, OutstandingIn, Released, ReleasedAllBut;
      NextToRelease(s, View(), order, onlyLate, now, timeout, reset);
      var pp;
      pp, n := ReleasePiece(active[index], onlyLate, now, timeout);
      ReleaseStep(s, View(), order, onlyLate, now, timeout, pp, reset);
      active := active[index := pp];
    }

    // ---------- picking ----------

    /** activeOrder, with the sort taken as correct. */
    method ActiveOrder() returns (order: seq<int>)
      requires Valid(View())
      ensures IsOrder(order, active)
    {
      order := [];
      for i := 0 to |cfg.lengths|
        invariant forall k :: 0 <= k < i ==> (k in active <==> k in order)
        invariant forall k :: 0 <= k < |order| ==> 0 <= order[k] < i && order[k] in active
        invariant forall k, l :: 0 <= k < l < |order| ==> order[k] < order[l]
      {
        if i in active {
          order := order + [i];
        }
      }
      forall i | i in active ensures i in order {
        assert PieceSound(View(), i, active[i]);
      }
    }

    /** One piece of Pick's work. */
    method FillOne(out0: seq<Request>, index: int, max: int, now: int, endgame: bool, ghost s0: State, ghost peer: set<int>)
      returns (out: seq<Request>)
      requires Picking(s0, peer, max, now, endgame, View(), out0) && index in active && index in peer && |out0| < max
      requires forall r :: r in out0 ==> r.index != index
      modifies this
      ensures Picking(s0, peer, max, now, endgame, View(), out)
      ensures index in active && View() == old(View()).(active := old(active)[index := active[index]])
      ensures (forall r :: r in out ==> r in out0 || r.index == index) && forall r :: r in out0 ==> r in out
      ensures |out| < max ==> Offered(View(), out, endgame, index)
    {
      hide Picking, Filled, Valid, Taken, Requests, MarkPending;
      ghost var s, pp := View(), active[index];
      PickingIsSound(s0, peer, max, now, endgame, s, out0, index);
      var pp';
      out, pp' := Fill(out0, active[index], max, now, endgame);
      active := active[index := pp'];
      FillMeans(pp, max - |out0|, now, endgame);
      PickingFills(s0, peer, max, now, endgame, s, out0, index, active[index], Requests(pp, Taken(pp, max - |out0|, endgame)));
    }

    /** pickByStrategy within a tier, random tie-breaks included. */
    method PickByStrategy(peer: set<int>, tier: Priority) returns (best: int)
      requires Valid(View()) && tier != Skip
      ensures BestOfTier(View(), peer, tier, best)
    {
      ghost var s := View();
      if strategy == Sequential {
        for i := 0 to |cfg.lengths|
          invariant forall k :: 0 <= k < i ==> !InTier(s, peer, tier, k)
        {
          if Wants(peer, tier, i) {
            return i;
          }
        }
        return -1;
      }
      best := -1;
      var bestCount := 0;
      for i := 0 to |cfg.lengths|
        invariant best < i
        invariant best < 0 ==> forall k :: 0 <= k < i ==> !InTier(s, peer, tier, k)
        invariant best >= 0 ==> InTier(s, peer, tier, best) && bestCount == s.avail[best]
        invariant best >= 0 ==> forall k :: 0 <= k < i && InTier(s, peer, tier, k) ==> bestCount <= s.avail[k]
      {
        var count := availability.Count(i);
        if count == 0 || !Wants(peer, tier, i) {
          continue;
        }
        if best < 0 || count < bestCount {
          best, bestCount := i, count;
        } else if count == bestCount {
          if * {
            best := i;
          }
        }
      }
    }

    /** The caller's want predicate: missing, not in progress, of this tier, and the peer has it. */
    predicate Wants(peer: set<int>, tier: Priority, i: int)
      requires Valid(View()) && 0 <= i < |cfg.lengths|
      reads this, availability
    {
      (if priority.Some? then priority.value[i] == tier else tier == Normal) && i !in have && i !in active && i in peer
    }

    /** nextPiece: the highest tier with anything pickable wins. */
    method NextPiece(peer: set<int>) returns (index: int)
      requires Valid(View())
      ensures IsNext(View(), peer, if index < 0 then None else Some(index))
    {
      hide Pickable, Valid, IsNext, InTier;
      if priority.None? {
        index := PickByStrategy(peer, Normal);
        NextWithoutPriorities(View(), peer, index);
        return;
      }
      for k := 0 to 3
        invariant forall j, i :: 0 <= j < k && IsPiece(View(), i) ==> !InTier(View(), peer, TIERS[j], i)
      {
        index := PickByStrategy(peer, TIERS[k]);
        if index >= 0 {
          NextFromTier(View(), peer, k, index);
          return;
        }
      }
      NothingInTiers(View(), peer);
      index := -1;
    }

    method Pick(peer: set<int>, max: int, now: int) returns (out: seq<Request>)
      requires Valid(View())
      modifies this
      ensures Valid(View()) && Picked(old(View()), peer, max, now, View(), out)
    {
      ghost var s0 := View();
      var remaining := Remaining();
      if max <= 0 || remaining == 0 {
        return [];
      }
      var endgame := remaining <= cfg.endgameThreshold;
      out := [];
      PickingStarts(s0, peer, max, now, endgame);
      var order := ActiveOrder();
      out := Sweep(order, peer, max, now, endgame);
      if |out| >= max {
        return;
      }
      SweptDrains(View(), peer, order, max, out, endgame);
      out := StartPieces(out, peer, max, now, endgame, s0);
    }

    /** The first loop of Pick: the pieces already in progress. */
    method Sweep(order: seq<int>, peer: set<int>, max: int, now: int, endgame: bool) returns (out: seq<Request>)
      requires Picking(View(), peer, max, now, endgame, View(), []) && IsOrder(order, active) && max > 0
      modifies this
      ensures Picking(old(View()), peer, max, now, endgame, View(), out) && active.Keys == old(active).Keys
      ensures |out| < max ==> Swept(View(), peer, order, max, out, endgame)
    {
      hide Picking, Swept, Valid;
      ghost var s0 := View();
      out := [];
      SweptNothing(s0, peer, max, endgame);
      assert order[..0] == [];
      for k := 0 to |order|
        invariant Picking(s0, peer, max, now, endgame, View(), out) && active.Keys == s0.active.Keys
        invariant Swept(View(), peer, order[..k], max, out, endgame)
      {
        if |out| >= max {
          return;
        }
        var index := order[k];
        assert order[..k + 1] == order[..k] + [index];
        assert index in s0.active && index !in order[..k];
        ghost var s, was := View(), out;
        if index in peer {
          SweptIndexes(s, peer, order[..k], max, out, endgame);
          out := FillOne(out, index, max, now, endgame, s0, peer);
        }
        SweptOneMore(s, View(), peer, order[..k], index, max, was, out, endgame);
      }
      assert order[..|order|] == order;
    }

    /** The second loop of Pick: starting new pieces while there is room. */
    method StartPieces(out0: seq<Request>, peer: set<int>, max: int, now: int, endgame: bool, ghost s0: State) returns (out: seq<Request>)
      requires Picking(s0, peer, max, now, endgame, View(), out0) && Drained(View(), peer, out0, endgame)
      modifies this
      ensures Picking(s0, peer, max, now, endgame, View(), out)
      ensures |out| < max ==> Drained(View(), peer, out, endgame) && (|active| >= cfg.maxActive || IsNext(View(), peer, None))
    {
      hide Valid, Picking, Drained, IsNext, AskedFor, StartedBest;
      out := out0;
      while |out| < max && |active| < cfg.maxActive
        invariant Picking(s0, peer, max, now, endgame, View(), out)
        invariant |out| < max ==> Drained(View(), peer, out, endgame)
        decreases cfg.maxActive - |active|
      {
        PickingIsValid(s0, peer, max, now, endgame, View(), out);
        var index := NextPiece(peer);
        if index < 0 {
          return;
        }
        ghost var s, was := View(), out;
        NextIsPickable(s, peer, index);
        PickingStartsPiece(s0, peer, max, now, endgame, s, out, index);
        active := active[index := Started(index, cfg.lengths[index])];
        assert View() == Start(s, index);
        out := FillOne(out, index, max, now, endgame, s0, peer);
        assert View() == s.(active := s.active[index := active[index]]);
        if |out| < max {
          DrainedOneMore(s, View(), peer, index, was, out, endgame);
        }
        OneMoreKey(s.active, index, active[index]);
      }
    }
  }

  lemma {:induction false} PickingIsSound(s0: State, peer: set<int>, max: int, now: int, endgame: bool, s: State, out: seq<Request>, index: int)
    requires Picking(s0, peer, max, now, endgame, s, out) && index in s.active
    ensures PieceSound(s, index, s.active[index])
  {
  }

  /** fill: ask for the free blocks of a piece in progress, in order. */
  method Fill(out0: seq<Request>, piece: Progress, max: int, now: int, endgame: bool) returns (out: seq<Request>, pp: Progress)
    requires |piece.states| == |piece.requested| && |out0| < max
    ensures var t := Taken(piece, max - |out0|, endgame);
            out == out0 + Requests(piece, t) && pp == MarkPending(piece, t, now)
  {
    hide BlockRequest, BlockCount, MarkPending, Eligible, Taken, Requests;
    assert piece.states[..0] == [];
    FillNothing(piece, endgame, now);
    out, pp := out0, piece;
    ghost var t: seq<nat> := [];
    for i := 0 to |piece.states|
      invariant t == Eligible(piece.states[..i], endgame) && |t| <= max - |out0|
      invariant pp == MarkPending(piece, t, now) && out == out0 + Requests(piece, t)
    {
      EligiblePrefix(piece.states, endgame, i);
      FillStep(piece, i, endgame, now, t, pp);
      if |out| >= max {
        TakenSoFar(piece, i, max - |out0|, endgame);
        return;
      }
      if pp.states[i] == Delivered || (pp.states[i] == Pending && !endgame) {
        continue;
      }
      pp := pp.(states := pp.states[i := Pending], requested := pp.requested[i := now]);
      RequestsSnoc(piece, t, i);
      out := out + [BlockRequest(pp.index, pp.length, i)];
      t := t + [i];
    }
    TakenSoFar(piece, |piece.states|, max - |out0|, endgame);
  }

  /** One piece of the Expire and ResetAllPending loops. */
  method ReleasePiece(piece: Progress, onlyLate: bool, now: int, timeout: int) returns (pp: Progress, n: nat)
    requires |piece.states| == |piece.requested|
    ensures Released(piece, pp, Late(piece, onlyLate, now, timeout)) && n == |Late(piece, onlyLate, now, timeout)|
  {
    pp, n := piece, 0;
    ghost var seen: set<nat> := {};
    for i := 0 to |piece.states|
      invariant seen == set b | b in Late(piece, onlyLate, now, timeout) && b < i
      invariant |seen| == n && Released(piece, pp, seen)
    {
      if pp.states[i] == Pending && (onlyLate ==> now - pp.requested[i] > timeout) {
        pp := pp.(states := pp.states[i := Needed]);
        n := n + 1;
        seen := seen + {i};
      }
    }
    assert seen == Late(piece, onlyLate, now, timeout);
  }

  /** The pieces in progress, in ascending order. */
  ghost predicate IsOrder(order: seq<int>, active: map<int, Progress>) {
    && (forall i :: i in active <==> i in order)
    && (forall k, l :: 0 <= k < l < |order| ==> order[k] < order[l])
  }

  /** Nothing is waiting in the pieces of `order` that the peer has, unless the answer is already full. */
  ghost predicate Swept(s: State, peer: set<int>, order: seq<int>, max: int, out: seq<Request>, endgame: bool) {
    && (forall r :: r in out ==> r.index in order)
    && (|out| < max ==> forall i :: i in order && i in s.active && i in peer ==> Offered(s, out, endgame, i))
  }

  lemma {:induction false} SweptOneMore(s: State, s': State, peer: set<int>, order: seq<int>, index: int, max: int,
                                        out: seq<Request>, out': seq<Request>, endgame: bool)
    requires Swept(s, peer, order, max, out, endgame) && index in s.active && index in s'.active && s' == s.(active := s.active[index := s'.active[index]])
    requires index !in order && |out| < max
    requires (forall r :: r in out' ==> r in out || r.index == index) && forall r :: r in out ==> r in out'
    requires |out'| < max ==> index in peer ==> Offered(s', out', endgame, index)
    ensures Swept(s', peer, order + [index], max, out', endgame)
  {
    hide BlockRequest;
  }

  lemma {:induction false} SweptNothing(s: State, peer: set<int>, max: int, endgame: bool)
    ensures Swept(s, peer, [], max, [], endgame)
  {
  }

  lemma {:induction false} NextFromTier(s: State, peer: set<int>, k: nat, index: int)
    requires Valid(s) && s.priority.Some? && k < 3
    requires forall j, i :: 0 <= j < k && IsPiece(s, i) ==> !InTier(s, peer, TIERS[j], i)
    requires BestOfTier(s, peer, TIERS[k], index) && index >= 0
    ensures IsNext(s, peer, Some(index))
  {
    hide Valid;
    forall i | IsPiece(s, i) && Pickable(s, peer, i) ensures !Better(s, i, index) {
      assert !(k > 0 && InTier(s, peer, TIERS[0], i)) && !(k > 1 && InTier(s, peer, TIERS[1], i));
    }
  }

  lemma {:induction false} NothingInTiers(s: State, peer: set<int>)
    requires Valid(s) && forall j, i :: 0 <= j < 3 && IsPiece(s, i) ==> !InTier(s, peer, TIERS[j], i)
    ensures IsNext(s, peer, None)
  {
    hide Valid;
    forall i | IsPiece(s, i) ensures !Pickable(s, peer, i) {
      assert !InTier(s, peer, TIERS[0], i) && !InTier(s, peer, TIERS[1], i) && !InTier(s, peer, TIERS[2], i);
    }
  }

  lemma {:induction false} NextWithoutPriorities(s: State, peer: set<int>, index: int)
    requires Valid(s) && s.priority.None? && BestOfTier(s, peer, Normal, index)
    ensures IsNext(s, peer, if index < 0 then None else Some(index))
  {
    hide Valid;
    forall i | IsPiece(s, i) ensures InTier(s, peer, Normal, i) <==> Pickable(s, peer, i) {
    }
  }

  lemma {:induction false} SweptIndexes(s: State, peer: set<int>, order: seq<int>, max: int, out: seq<Request>, endgame: bool)
    requires Swept(s, peer, order, max, out, endgame)
    ensures forall r :: r in out ==> r.index in order
  {
  }

  lemma {:induction false} PickingIsValid(s0: State, peer: set<int>, max: int, now: int, endgame: bool, s: State, out: seq<Request>)
    requires Picking(s0, peer, max, now, endgame, s, out)
    ensures Valid(s) && s == s0.(active := s.active)
  {
  }

  lemma {:induction false} OneMoreKey(m: map<int, Progress>, k: int, pp: Progress)
    requires k !in m
    ensures |m[k := pp]| == |m| + 1
  {
    assert m[k := pp].Keys == m.Keys + {k};
    assert |m[k := pp]| == |m[k := pp].Keys| && |m| == |m.Keys|;
  }

  lemma {:induction false} SweptDrains(s: State, peer: set<int>, order: seq<int>, max: int, out: seq<Request>, endgame: bool)
    requires IsOrder(order, s.active) && Swept(s, peer, order, max, out, endgame) && |out| < max
    ensures Drained(s, peer, out, endgame)
  {
  }

  /** A started and then filled piece leaves nothing waiting either. */
  lemma {:induction false} DrainedOneMore(s: State, s': State, peer: set<int>, n: int, out: seq<Request>, out': seq<Request>, endgame: bool)
    requires Drained(s, peer, out, endgame) && n !in s.active && n in s'.active && s' == s.(active := s.active[n := s'.active[n]])
    requires Offered(s', out', endgame, n) && forall r :: r in out ==> r in out'
    ensures Drained(s', peer, out', endgame)
  {
    hide BlockRequest;
    forall i | i in s'.active && i in peer ensures Offered(s', out', endgame, i) {
      assert i != n ==> Offered(s, out, endgame, i);
    }
  }

  /** The pickable pieces of one tier. */
  ghost predicate InTier(s: State, peer: set<int>, tier: Priority, i: int)
    requires Valid(s)
  {
    Pickable(s, peer, i) && Tier(s, i) == tier
  }

  /** The best of a tier, or none. */
  ghost predicate BestOfTier(s: State, peer: set<int>, tier: Priority, r: int)
    requires Valid(s)
  {
    if r < 0 then forall i :: IsPiece(s, i) ==> !InTier(s, peer, tier, i)
    else InTier(s, peer, tier, r) && forall i :: IsPiece(s, i) && InTier(s, peer, tier, i) ==> !Better(s, i, r)
  }

  lemma {:induction false} MissingWithoutPriorities(s: State)
    requires Valid(s) && s.priority.None?
    ensures |Missing(s)| == |s.cfg.lengths| - |s.have|
  {
    UpToMeans(|s.cfg.lengths|);
    var all := UpTo(|s.cfg.lengths|);
    assert Missing(s) == all - s.have;
    forall i | i in s.have ensures i in all {
      assert IsPiece(s, i);
    }
    assert all == (all - s.have) + s.have;
  }

  function UpTo(n: nat): (r: set<int>) {
    if n == 0 then {} else UpTo(n - 1) + {n - 1}
  }

  lemma {:induction false} UpToMeans(n: nat)
    ensures |UpTo(n)| == n && forall i :: i in UpTo(n) <==> 0 <= i < n
  {
    if n > 0 {
      UpToMeans(n - 1);
    }
  }

  // ---------- outstanding blocks ----------

  function Late(pp: Progress, onlyLate: bool, now: int, timeout: int): (bs: set<nat>) {
    set b: nat | b < |pp.states| && pp.states[b] == Pending && (onlyLate ==> b < |pp.requested| && now - pp.requested[b] > timeout)
  }

  function OutstandingIn(s: State, pieces: set<int>, onlyLate: bool, now: int, timeout: int): (bs: set<(int, nat)>) {
    set i, b | i in pieces && i in s.active && b in Late(s.active[i], onlyLate, now, timeout) :: (i, b)
  }

  function Outstanding(s: State, onlyLate: bool, now: int, timeout: int): (bs: set<(int, nat)>) {
    OutstandingIn(s, s.active.Keys, onlyLate, now, timeout)
  }

  /** The blocks whose requests have timed out. */
  function Overdue(s: State, now: int): (bs: set<(int, nat)>)
    requires Valid(s)
  {
    Outstanding(s, true, now, Timeout(s))
  }

  /** A request is given up when it is older than the timeout: the short one once few enough pieces are missing. */
  lemma {:induction false} OverdueMeans(s: State, now: int, i: int, b: nat)
    requires Valid(s)
    ensures (i, b) in Overdue(s, now) <==>
              && i in s.active && b < |s.active[i].states| && s.active[i].states[b] == Pending && b < |s.active[i].requested|
              && now - s.active[i].requested[b] > if 0 < |Missing(s)| <= s.cfg.endgameThreshold then s.cfg.endgameTimeout else s.cfg.requestTimeout
  {
  }

  lemma {:induction false} OutstandingArePending(s: State, onlyLate: bool, now: int, timeout: int)
    ensures forall i, b :: (i, b) in Outstanding(s, onlyLate, now, timeout) ==> IsPending(s, i, b)
  {
  }

  /** All pieces but those still in the order have been released, `reset` blocks in all. */
  ghost predicate ReleasedAllBut(s: State, s': State, order: seq<int>, onlyLate: bool, now: int, timeout: int, reset: nat) {
    && s' == s.(active := s'.active) && s'.active.Keys == s.active.Keys
    && (forall k :: 0 <= k < |order| ==> order[k] in s.active)
    && (forall k, l :: 0 <= k < l < |order| ==> order[k] < order[l])
    && (forall i :: i in s.active ==>
         if i in order then s'.active[i] == s.active[i] else Released(s.active[i], s'.active[i], Late(s.active[i], onlyLate, now, timeout)))
    && reset == |OutstandingIn(s, s.active.Keys - Elements(order), onlyLate, now, timeout)|
  }

  function Elements(order: seq<int>): (e: set<int>) {
    set i | i in order
  }

  lemma {:induction false} NothingReleased(s: State, order: seq<int>, onlyLate: bool, now: int, timeout: int)
    requires IsOrder(order, s.active)
    ensures ReleasedAllBut(s, s, order[0..], onlyLate, now, timeout, 0)
  {
    assert order[0..] == order;
    forall i | i in s.active.Keys ensures i in Elements(order) {
    }
    assert s.active.Keys - Elements(order) == {};
    assert OutstandingIn(s, {}, onlyLate, now, timeout) == {};
  }

  lemma {:induction false} NextToRelease(s: State, cur: State, order: seq<int>, onlyLate: bool, now: int, timeout: int, reset: nat)
    requires Valid(s) && order != [] && ReleasedAllBut(s, cur, order, onlyLate, now, timeout, reset)
    ensures order[0] in s.active && order[0] in cur.active && cur.active[order[0]] == s.active[order[0]]
    ensures |s.active[order[0]].states| == |s.active[order[0]].requested|
  {
    hide Late, OutstandingIn, Released;
    assert PieceSound(s, order[0], s.active[order[0]]);
  }

  lemma {:induction false} ReleaseStep(s: State, cur: State, order: seq<int>, onlyLate: bool, now: int, timeout: int, pp: Progress, reset: nat)
    requires order != [] && ReleasedAllBut(s, cur, order, onlyLate, now, timeout, reset)
    requires Released(s.active[order[0]], pp, Late(s.active[order[0]], onlyLate, now, timeout))
    ensures ReleasedAllBut(s, cur.(active := cur.active[order[0] := pp]), order[1..], onlyLate, now, timeout,
                           reset + |Late(s.active[order[0]], onlyLate, now, timeout)|)
  {
    hide Released, Late, OutstandingIn;
    var index := order[0];
    assert order == [index] + order[1..];
    assert index !in order[1..];
    OutstandingOneMore(s, s.active.Keys - Elements(order), onlyLate, now, timeout, index);
    assert s.active.Keys - Elements(order[1..]) == (s.active.Keys - Elements(order)) + {index};
  }

  function Pairs(i: int, bs: set<nat>): (ps: set<(int, nat)>) {
    set x | x in bs :: (i, x)
  }

  lemma {:induction false} OutstandingOneMore(s: State, pieces: set<int>, onlyLate: bool, now: int, timeout: int, index: int)
    requires index in s.active && index !in pieces
    ensures |OutstandingIn(s, pieces + {index}, onlyLate, now, timeout)|
         == |OutstandingIn(s, pieces, onlyLate, now, timeout)| + |Late(s.active[index], onlyLate, now, timeout)|
  {
    hide Late;
    var a, b := OutstandingIn(s, pieces, onlyLate, now, timeout), Pairs(index, Late(s.active[index], onlyLate, now, timeout));
    assert OutstandingIn(s, pieces + {index}, onlyLate, now, timeout) == a + b;
    assert a !! b;
    PairsSize(index, Late(s.active[index], onlyLate, now, timeout));
  }

  lemma {:induction false} PairsSize(i: int, bs: set<nat>)
    ensures |Pairs(i, bs)| == |bs|
  {
    if bs == {} {
      assert Pairs(i, bs) == {};
    } else {
      var y :| y in bs;
      PairsSize(i, bs - {y});
      assert Pairs(i, bs) == Pairs(i, bs - {y}) + {(i, y)};
    }
  }

  lemma {:induction false} AllReleased(s: State, s': State, onlyLate: bool, now: int, timeout: int, reset: nat)
    requires ReleasedAllBut(s, s', [], onlyLate, now, timeout, reset)
    ensures Releases(s, s', Outstanding(s, onlyLate, now, timeout)) && reset == |Outstanding(s, onlyLate, now, timeout)|
  {
    hide Released;
    assert s.active.Keys - Elements([]) == s.active.Keys;
    var which := Outstanding(s, onlyLate, now, timeout);
    forall i | i in s.active ensures Released(s.active[i], s'.active[i], set b: nat | b < |s.active[i].states| && (i, b) in which) {
      assert (set b: nat | b < |s.active[i].states| && (i, b) in which) == Late(s.active[i], onlyLate, now, timeout);
    }
  }

  /** withDefaults: anything not positive is replaced. */
  function Settings(lengths: seq<nat>, maxActive: int, requestTimeout: int, endgameThreshold: int, endgameTimeout: int): (cfg: Config)
    ensures cfg.maxActive > 0 && cfg.requestTimeout > 0 && cfg.endgameThreshold > 0 && cfg.endgameTimeout > 0
    ensures maxActive > 0 ==> cfg.maxActive == maxActive
  {
    Config(lengths, if maxActive <= 0 then 64 else maxActive, if requestTimeout <= 0 then 15 * SECOND else requestTimeout,
           if endgameThreshold <= 0 then 8 else endgameThreshold, if endgameTimeout <= 0 then 3 * SECOND else endgameTimeout)
  }

  const SECOND := 1_000_000_000

  /** The piece lengths that a callback gives. */
  function LengthsFrom(numPieces: int, pieceLength: int -> nat): (lengths: seq<nat>) {
    if numPieces <= 0 then [] else seq(numPieces, i => pieceLength(i))
  }

  /** New: a torrent without pieces or without a way to ask for their lengths is refused. */
  method New(numPieces: int, pieceLength: Option<int -> nat>, maxActive: int, requestTimeout: int, endgameThreshold: int, endgameTimeout: int,
             strategy: Strategy)
    returns (p: Option<Picker>)
    ensures p.None? <==> numPieces <= 0 || pieceLength.None?
    ensures p.Some? ==>
              && p.value.View().have == {} && p.value.View().active == map[] && p.value.View().priority == None && Valid(p.value.View())
              && p.value.View().cfg == Settings(LengthsFrom(numPieces, pieceLength.value), maxActive, requestTimeout, endgameThreshold, endgameTimeout)
              && |p.value.View().cfg.lengths| == numPieces
  {
    if numPieces <= 0 || pieceLength.None? {
      return None;
    }
    var lengths := LengthsFrom(numPieces, pieceLength.value);
    var picker := new Picker(Settings(lengths, maxActive, requestTimeout, endgameThreshold, endgameTimeout), strategy);
    p := Some(picker);
  }

  // ---------- the same operations on a picker's value ----------

  /** Pick, for a picker given by its state. */
  method PickFrom(s: State, peer: set<int>, max: int, now: int) returns (s': State, out: seq<Request>)
    requires Valid(s)
    ensures Picked(s, peer, max, now, s', out)
  {
    var p := new Picker.FromState(s);
    out := p.Pick(peer, max, now);
    s' := p.View();
  }

  /** Expire, for a picker given by its state. */
  method ExpireFrom(s: State, now: int) returns (s': State)
    requires Valid(s)
    ensures Valid(s') && Releases(s, s', Overdue(s, now))
  {
    var p := new Picker.FromState(s);
    var _ := p.Expire(now);
    s' := p.View();
  }
}
