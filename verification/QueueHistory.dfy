/** The queue over whole histories: what its flag remembers, and which pauses last. */
module QueueHistory {
  import Bytes
  import opened Queue

  function After(s: State, caps: Caps, history: seq<Action>): (s': State) {
    if history == [] then s else Next(After(s, caps, history[..|history| - 1]), caps, history[|history| - 1])
  }

  const Empty := State(map[], 0)

  // ---------- the flag ----------

  /** A pass in the i-th action calls Pause (Resume) on h with success. */
  ghost predicate QueuePauses(caps: Caps, history: seq<Action>, i: nat, h: Hash)
    requires i < |history|
  {
    Toggles(After(Empty, caps, history[..i]), caps, history[i], h, true)
  }

  ghost predicate QueueResumes(caps: Caps, history: seq<Action>, i: nat, h: Hash)
    requires i < |history|
  {
    Toggles(After(Empty, caps, history[..i]), caps, history[i], h, false)
  }

  ghost predicate Toggles(s: State, caps: Caps, a: Action, h: Hash, running: bool) {
    match ToPass(s, a)
    case Some(fleet) => h in fleet && IsCalled(fleet, caps, h) && fleet[h].responds && Running(fleet[h]) == running
    case None => false
  }

  /** The queue has paused h, and since then has not resumed it, nor has it been removed. */
  ghost predicate PausedByQueue(caps: Caps, history: seq<Action>, h: Hash) {
    exists i :: 0 <= i < |history| && QueuePauses(caps, history, i, h) && Untouched(caps, history, i, h)
  }

  ghost predicate Untouched(caps: Caps, history: seq<Action>, i: int, h: Hash) {
    forall j :: 0 <= i < j < |history| ==> history[j] != Remove(h) && !QueueResumes(caps, history, j, h)
  }

  predicate Held(fleet: Fleet, h: Hash) {
    h in fleet && fleet[h].queueHeld
  }

  /** One action: the flag goes up with a queue pause, and down with a queue resume or a removal. */
  lemma {:induction false} FlagStep(s: State, caps: Caps, a: Action, h: Hash)
    ensures Held(Next(s, caps, a).fleet, h) <==>
      Toggles(s, caps, a, h, true) || (Held(s.fleet, h) && a != Remove(h) && !Toggles(s, caps, a, h, false))
  {
    hide KeepOf, Place, Shifted, Clamp;
  }

  /** Prefixes of a history with one action less are its prefixes. */
  lemma {:induction false} OneMore(caps: Caps, history: seq<Action>, h: Hash)
    requires history != []
    ensures var n := |history| - 1; var s := After(Empty, caps, history[..n]);
            PausedByQueue(caps, history, h) <==>
              Toggles(s, caps, history[n], h, true) || (PausedByQueue(caps, history[..n], h) && history[n] != Remove(h) && !Toggles(s, caps, history[n], h, false))
  {
    hide After, Toggles;
    var n := |history| - 1;
    var before := history[..n];
    assert forall i :: 0 <= i < n ==> before[..i] == history[..i];
    if PausedByQueue(caps, history, h) {
      var i :| 0 <= i < |history| && QueuePauses(caps, history, i, h) && Untouched(caps, history, i, h);
      if i < n {
        assert QueuePauses(caps, before, i, h);
        forall j | i < j < n ensures before[j] != Remove(h) && !QueueResumes(caps, before, j, h) {
          assert history[j] != Remove(h) && !QueueResumes(caps, history, j, h);
        }
        assert !QueueResumes(caps, history, n, h);
      }
    }
    if PausedByQueue(caps, before, h) && history[n] != Remove(h) && !QueueResumes(caps, history, n, h) {
      var i :| 0 <= i < |before| && QueuePauses(caps, before, i, h) && Untouched(caps, before, i, h);
      assert QueuePauses(caps, history, i, h);
      forall j | i < j < |history| ensures history[j] != Remove(h) && !QueueResumes(caps, history, j, h) {
        assert j < n ==> before[j] != Remove(h) && !QueueResumes(caps, before, j, h);
      }
    }
    if QueuePauses(caps, history, n, h) {
      assert Untouched(caps, history, n, h);
    }
  }

  /** Over every history: the flag is up exactly while the queue's last word on a managed torrent was a pause. */
  lemma {:induction false} FlagMeans(caps: Caps, history: seq<Action>, h: Hash)
    ensures Held(After(Empty, caps, history).fleet, h) <==> PausedByQueue(caps, history, h)
  {
    if history != [] {
      var n := |history| - 1;
      FlagMeans(caps, history[..n], h);
      FlagStep(After(Empty, caps, history[..n]), caps, history[n], h);
      OneMore(caps, history, h);
    }
  }

  // ---------- which pauses last ----------

  /** Nobody resumes h, nor removes it, and it does not change by itself. */
  ghost predicate LeavesAlone(more: seq<Action>, h: Hash) {
    forall a :: a in more ==> a != Remove(h) && !(a.Resume? && a.h == h) && !(a.Change? && a.h == h)
  }

  /** Nothing that happens names h. */
  ghost predicate Silent(more: seq<Action>, h: Hash) {
    forall a :: a in more ==> a == Pass || a.h != h
  }

  ghost predicate IsPaused(fleet: Fleet, h: Hash) {
    h in fleet && fleet[h].status == Paused
  }

  /** The pause of h lasts as long as the torrent itself is left alone. */
  ghost predicate Lasts(s: State, caps: Caps, h: Hash) {
    forall more :: LeavesAlone(more, h) ==> IsPaused(After(s, caps, more).fleet, h)
  }

  /** The queue will not, or cannot, resume h. */
  predicate OutOfReach(caps: Caps, m: Managed) {
    Unlimited(caps) || !m.queueHeld || !m.responds
  }

  lemma {:induction false} StaysPaused(s: State, caps: Caps, h: Hash, more: seq<Action>)
    requires IsPaused(s.fleet, h) && OutOfReach(caps, s.fleet[h]) && LeavesAlone(more, h)
    ensures IsPaused(After(s, caps, more).fleet, h) && OutOfReach(caps, After(s, caps, more).fleet[h])
  {
    if more != [] {
      var n := |more| - 1;
      assert more[n] in more;
      StaysPaused(s, caps, h, more[..n]);
      StepStaysPaused(After(s, caps, more[..n]), caps, h, more[n]);
    }
  }

  lemma {:induction false} StepStaysPaused(s: State, caps: Caps, h: Hash, a: Action)
    requires IsPaused(s.fleet, h) && OutOfReach(caps, s.fleet[h]) && a != Remove(h) && !(a.Resume? && a.h == h) && !(a.Change? && a.h == h)
    ensures IsPaused(Next(s, caps, a).fleet, h) && OutOfReach(caps, Next(s, caps, a).fleet[h])
  {
    hide KeepOf, Place, Shifted, Clamp;
  }

  lemma {:induction false} AfterOneMore(s: State, caps: Caps, more: seq<Action>, a: Action)
    ensures After(s, caps, more + [a]) == Next(After(s, caps, more), caps, a)
  {
    assert (more + [a])[..|more|] == more;
  }

  /** Everyone else leaves. */
  lemma {:induction false} OthersLeave(s: State, caps: Caps, others: set<Hash>, h: Hash) returns (more: seq<Action>)
    requires h !in others
    ensures Silent(more, h) && After(s, caps, more).fleet == s.fleet - others
  {
    if others == {} {
      more := [];
      assert s.fleet - {} == s.fleet;
    } else {
      var g := Bytes.SomeMember(others);
      more := OthersLeave(s, caps, others - {g}, h);
      AfterOneMore(s, caps, more, Remove(g));
      assert s.fleet - (others - {g}) - {g} == s.fleet - others;
      more := more + [Remove(g)];
    }
  }

  /** The only candidate is kept, whatever the caps. */
  lemma {:induction false} OnlyCandidateIsKept(fleet: Fleet, caps: Caps, h: Hash)
    requires fleet.Keys == {h} && IsCandidate(fleet[h])
    ensures CandidateOf(h, fleet[h]) in KeepOf(fleet, caps)
  {
    var c := CandidateOf(h, fleet[h]);
    assert Down(fleet) + Seeds(fleet) == {c};
    var d, e := First(Down(fleet), caps.downloads), First(Seeds(fleet), caps.seeds);
    NobodyAhead(Down(fleet), c);
    NobodyAhead(Seeds(fleet), c);
    assert c in d + e;
    NobodyAhead(d + e, c);
  }

  lemma {:induction false} NobodyAhead(cs: set<Candidate>, c: Candidate)
    requires cs <= {c}
    ensures Ahead(cs, c) == {} && forall max :: First(cs, max) == cs
  {
    assert !Before(c, c);
  }

  /** Otherwise the next pass after the others have left resumes it, though nothing has named it. */
  lemma {:induction false} SweptUp(s: State, caps: Caps, h: Hash) returns (more: seq<Action>)
    requires IsPaused(s.fleet, h) && !OutOfReach(caps, s.fleet[h])
    ensures Silent(more, h) && h in After(s, caps, more).fleet && Running(After(s, caps, more).fleet[h])
  {
    more := OthersLeave(s, caps, s.fleet.Keys - {h}, h);
    var alone := After(s, caps, more);
    assert alone.fleet.Keys == {h};
    OnlyCandidateIsKept(alone.fleet, caps, h);
    AfterOneMore(s, caps, more, Pass);
    hide KeepOf;
    more := more + [Pass];
  }

  lemma {:induction false} SilentLeavesAlone(more: seq<Action>, h: Hash)
    requires Silent(more, h)
    ensures LeavesAlone(more, h)
  {
  }

  /** A pause lasts exactly when the queue is out of reach of it. */
  lemma {:induction false} LastsIff(s: State, caps: Caps, h: Hash)
    requires IsPaused(s.fleet, h)
    ensures Lasts(s, caps, h) <==> OutOfReach(caps, s.fleet[h])
  {
    if OutOfReach(caps, s.fleet[h]) {
      forall more | LeavesAlone(more, h) ensures IsPaused(After(s, caps, more).fleet, h) {
        StaysPaused(s, caps, h, more);
      }
    } else {
      var more := SweptUp(s, caps, h);
      SilentLeavesAlone(more, h);
      assert !IsPaused(After(s, caps, more).fleet, h);
    }
  }

  /** Over every history, and whoever paused it: the queue never resumes h exactly when its last word on h was not a pause, or it cannot. */
  lemma {:induction false} PauseLastsIff(caps: Caps, history: seq<Action>, h: Hash)
    requires IsPaused(After(Empty, caps, history).fleet, h)
    ensures var paused := After(Empty, caps, history);
            Lasts(paused, caps, h) <==> Unlimited(caps) || !paused.fleet[h].responds || !PausedByQueue(caps, history, h)
  {
    FlagMeans(caps, history, h);
    LastsIff(After(Empty, caps, history), caps, h);
    hide Lasts, After;
  }

  /**
   * Over every history: after anyone but the queue has paused h, the pause lasts exactly when there are no
   * caps, or the torrent no longer answers, or every queue pause of h has been followed by a queue resume.
   */
  lemma {:induction false} OutsidePauseLastsIff(caps: Caps, history: seq<Action>, h: Hash)
    requires var before := After(Empty, caps, history).fleet; h in before && (Active(before[h]) ==> before[h].responds) && before[h].status != Failed
    ensures var paused := After(Empty, caps, history + [Pause(h)]);
            && IsPaused(paused.fleet, h)
            && (Lasts(paused, caps, h) <==> Unlimited(caps) || !paused.fleet[h].responds || !PausedByQueue(caps, history, h))
  {
    var s := After(Empty, caps, history);
    AfterOneMore(Empty, caps, history, Pause(h));
    FlagMeans(caps, history, h);
    LastsIff(After(Empty, caps, history + [Pause(h)]), caps, h);
    hide Lasts, After;
  }

  // ---------- the two ways to lose a pause ----------

  function Download(status: Status, queuePos: int, held: bool): (m: Managed) {
    Managed(status, 1, false, true, queuePos, false, held)
  }

  /** Two downloads, the second one perhaps with its flag up. */
  function Two(g: Hash, h: Hash, a: Status, b: Status, held: bool): (fleet: Fleet) {
    map[g := Download(a, 0, false), h := Download(b, 1, held)]
  }

  ghost predicate IsRunning(fleet: Fleet, h: Hash) {
    h in fleet && Running(fleet[h])
  }

  lemma {:induction false} FirstOfTwo(c: Candidate, d: Candidate)
    requires !c.forceStart && !d.forceStart && c.queuePos < d.queuePos
    ensures Keep({c, d}, {}, Caps(1, 0, 0)) == {c}
  {
    assert Ahead({c, d}, c) == {} && Ahead({c, d}, d) == {c};
    assert First({c, d}, 1) == {c} && First({}, 0) == {};
    assert {c} + {} == {c};
    NobodyAhead({c}, c);
  }

  /** With one slot, the first download has it. */
  lemma {:induction false} OneSlot(g: Hash, h: Hash, b: Status, held: bool)
    requires g != h && (b == Downloading || (b == Paused && held))
    ensures Reevaluated(Two(g, h, Downloading, b, held), Caps(1, 0, 0)) == Two(g, h, Downloading, Paused, held || b == Downloading)
  {
    var caps, fleet := Caps(1, 0, 0), Two(g, h, Downloading, b, held);
    var c, d := Candidate(g, 0, false), Candidate(h, 1, false);
    assert fleet.Keys == {g, h} && CandidateOf(g, fleet[g]) == c && CandidateOf(h, fleet[h]) == d;
    assert Down(fleet) == {c, d} && Seeds(fleet) == {};
    FirstOfTwo(c, d);
    hide Keep, First, Ahead, Down, Seeds;
  }

  /** If the first is paused by hand, the second has it. */
  lemma {:induction false} FreeSlot(g: Hash, h: Hash, b: Status, held: bool)
    requires g != h && (b == Downloading || (b == Paused && held))
    ensures Reevaluated(Two(g, h, Paused, b, held), Caps(1, 0, 0)) == Two(g, h, Paused, Downloading, held && b == Downloading)
  {
    var caps, fleet := Caps(1, 0, 0), Two(g, h, Paused, b, held);
    var d := Candidate(h, 1, false);
    assert fleet.Keys == {g, h} && CandidateOf(h, fleet[h]) == d;
    assert Down(fleet) == {d} && Seeds(fleet) == {};
    NobodyAhead({d}, d);
    assert First({}, 0) == {};
    assert {d} + {} == {d};
    assert KeepOf(fleet, caps) == {d};
    hide KeepOf, First, Ahead, Down, Seeds;
  }

  /** Two downloads and one slot: the queue has just paused the second. */
  function Start(g: Hash, h: Hash): (history: seq<Action>) {
    [Add(g, Download(Downloading, 0, false)), Add(h, Download(Downloading, 0, false)), Pass]
  }

  lemma {:induction false} Started(g: Hash, h: Hash)
    requires g != h
    ensures After(Empty, Caps(1, 0, 0), Start(g, h)).fleet == Two(g, h, Downloading, Paused, true)
  {
    hide KeepOf, Reevaluated;
    var caps, a, b := Caps(1, 0, 0), Add(g, Download(Downloading, 0, false)), Add(h, Download(Downloading, 0, false));
    AfterOneMore(Empty, caps, [], a);
    AfterOneMore(Empty, caps, [a], b);
    AfterOneMore(Empty, caps, [a] + [b], Pass);
    assert [a] + [b] + [Pass] == Start(g, h);
    assert After(Empty, caps, [a] + [b]).fleet == Two(g, h, Downloading, Downloading, false);
    OneSlot(g, h, Downloading, false);
  }

  /** One way: someone pauses what the queue already holds. */
  lemma {:induction false} HeldPauseIsLost(g: Hash, h: Hash)
    requires g != h
    ensures var caps, paused := Caps(1, 0, 0), After(Empty, Caps(1, 0, 0), Start(g, h) + [Pause(h)]);
            IsPaused(paused.fleet, h) && !Lasts(paused, caps, h)
  {
    Started(g, h);
    AfterOneMore(Empty, Caps(1, 0, 0), Start(g, h), Pause(h));
    LastsIff(After(Empty, Caps(1, 0, 0), Start(g, h) + [Pause(h)]), Caps(1, 0, 0), h);
  }

  /** The other: someone resumes it while a slot is free, the flag stays up, and the pass after a later pause resumes it. */
  lemma {:induction false} StaleFlagLosesPause(g: Hash, h: Hash)
    requires g != h
    ensures var caps, stale := Caps(1, 0, 0), Start(g, h) + [Pause(g), Resume(h, true), Pass];
            && IsRunning(After(Empty, caps, stale).fleet, h)
            && IsPaused(After(Empty, caps, stale + [Pause(h)]).fleet, h)
            && IsRunning(After(Empty, caps, stale + [Pause(h), Pass]).fleet, h)
  {
    hide KeepOf, Reevaluated, After;
    var caps, start, stale := Caps(1, 0, 0), Start(g, h), Start(g, h) + [Pause(g), Resume(h, true), Pass];
    Started(g, h);
    AfterOneMore(Empty, caps, start, Pause(g));
    AfterOneMore(Empty, caps, start + [Pause(g)], Resume(h, true));
    AfterOneMore(Empty, caps, start + [Pause(g)] + [Resume(h, true)], Pass);
    assert start + [Pause(g)] + [Resume(h, true)] + [Pass] == stale;
    assert After(Empty, caps, start + [Pause(g)] + [Resume(h, true)]).fleet == Two(g, h, Paused, Downloading, true);
    FreeSlot(g, h, Downloading, true);
    AfterOneMore(Empty, caps, stale, Pause(h));
    AfterOneMore(Empty, caps, stale + [Pause(h)], Pass);
    assert stale + [Pause(h)] + [Pass] == stale + [Pause(h), Pass];
    assert After(Empty, caps, stale + [Pause(h)]).fleet == Two(g, h, Paused, Paused, true);
    FreeSlot(g, h, Paused, true);
  }
}
