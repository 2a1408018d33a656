/** Which torrents of a fleet may run: internal/engine/queue.go. */
module Queue {
  import opened Bytes

  type Hash = string

  datatype Status = FetchingMetadata | CheckingFiles | Downloading | Seeding | Paused | Failed

  /** A managed torrent; a stopped one no longer answers Pause and Resume. */
  datatype Managed = Managed(status: Status, left: nat, complete: bool, responds: bool, queuePos: int, forceStart: bool, queueHeld: bool)

  datatype Candidate = Candidate(hash: Hash, queuePos: int, forceStart: bool)

  /** Zero means no limit. */
  datatype Caps = Caps(downloads: int, seeds: int, total: int)

  type Fleet = map<Hash, Managed>

  // ---------- priority ----------

  /** Force-started first, then by queue position. */
  predicate Before(c: Candidate, d: Candidate) {
    if c.forceStart != d.forceStart then c.forceStart else c.queuePos < d.queuePos
  }

  /** No two of them share a queue position, so priority is a total order. */
  ghost predicate Ordered(cs: set<Candidate>) {
    forall c, d :: c in cs && d in cs && c != d ==> c.queuePos != d.queuePos
  }

  /** Those of higher priority than c. */
  function Ahead(cs: set<Candidate>, c: Candidate): (ds: set<Candidate>) {
    set d | d in cs && Before(d, c)
  }

  /** The first max by priority, or all of them without a limit. */
  function First(cs: set<Candidate>, max: int): (ds: set<Candidate>) {
    set c | c in cs && (max <= 0 || |Ahead(cs, c)| < max)
  }

  lemma {:induction false} LeastPriority(cs: set<Candidate>) returns (z: Candidate)
    requires cs != {} && Ordered(cs)
    ensures z in cs && forall c :: c in cs && c != z ==> Before(c, z)
    decreases |cs|
  {
    var x := SomeMember(cs);
    if cs == {x} {
      z := x;
    } else {
      var y := LeastPriority(cs - {x});
      z := if Before(x, y) then y else x;
      forall c | c in cs && c != z ensures Before(c, z) {
        assert c == x || c in cs - {x};
      }
    }
  }

  lemma {:induction false} FirstSize(cs: set<Candidate>, max: int)
    requires Ordered(cs)
    ensures |First(cs, max)| == if max <= 0 then |cs| else Min(max, |cs|)
    decreases |cs|
  {
    if max <= 0 || cs == {} {
      assert First(cs, max) == cs;
    } else {
      var z := LeastPriority(cs);
      var rest := cs - {z};
      FirstSize(rest, max);
      forall c | c in rest ensures Ahead(cs, c) == Ahead(rest, c) {
      }
      assert Ahead(cs, z) == rest;
      assert First(cs, max) == First(rest, max) + if |rest| < max then {z} else {};
    }
  }

  lemma {:induction false} Smaller(a: set<Candidate>, b: set<Candidate>)
    requires a <= b
    ensures |a| <= |b| && (|a| == |b| ==> a == b)
  {
    assert b == a + (b - a);
    if b - a != {} {
      var x := SomeMember(b - a);
    }
  }

  /** First is closed upward. */
  lemma {:induction false} FirstIsClosed(cs: set<Candidate>, max: int, c: Candidate, d: Candidate)
    requires c in First(cs, max) && d in cs && Before(d, c)
    ensures d in First(cs, max)
  {
    assert Ahead(cs, d) <= Ahead(cs, c);
    Smaller(Ahead(cs, d), Ahead(cs, c));
  }

  // ---------- the decision ----------

  /** Who runs: each kind's own cap, then the cap on the total across both kinds. */
  function Keep(down: set<Candidate>, seed: set<Candidate>, caps: Caps): (keep: set<Candidate>) {
    First(First(down, caps.downloads) + First(seed, caps.seeds), caps.total)
  }

  lemma {:induction false} KeepObeysCaps(down: set<Candidate>, seed: set<Candidate>, caps: Caps)
    requires Ordered(down + seed) && down !! seed
    ensures var keep := Keep(down, seed, caps);
            && keep <= down + seed
            && (caps.downloads > 0 ==> |keep * down| <= caps.downloads)
            && (caps.seeds > 0 ==> |keep * seed| <= caps.seeds)
            && (caps.total > 0 ==> |keep| <= caps.total)
  {
    var keep, d, s := Keep(down, seed, caps), First(down, caps.downloads), First(seed, caps.seeds);
    FirstSize(down, caps.downloads);
    FirstSize(seed, caps.seeds);
    FirstSize(d + s, caps.total);
    Smaller(keep * down, d);
    Smaller(keep * seed, s);
  }

  lemma {:induction false} FirstIsPart(cs: set<Candidate>, max: int)
    ensures First(cs, max) <= cs
  {
  }

  /** Whoever is left out is left out by a full count. */
  lemma {:induction false} LeftOut(cs: set<Candidate>, max: int, c: Candidate)
    requires Ordered(cs)
    ensures |First(cs, max)| == if max <= 0 then |cs| else Min(max, |cs|)
    ensures c in cs && c !in First(cs, max) ==> max > 0 && |First(cs, max)| == max
  {
    FirstSize(cs, max);
    if c in cs && c !in First(cs, max) {
      Smaller(Ahead(cs, c), cs);
    }
  }

  /** Nobody left out could be let in: a cap that counts it is already used up. */
  lemma {:induction false} KeepIsMaximal(down: set<Candidate>, seed: set<Candidate>, caps: Caps, c: Candidate)
    requires Ordered(down + seed) && down !! seed && c in down + seed && c !in Keep(down, seed, caps)
    ensures var keep := Keep(down, seed, caps);
            || (caps.total > 0 && |keep| == caps.total)
            || (c in down && caps.downloads > 0 && |keep * down| == caps.downloads)
            || (c in seed && caps.seeds > 0 && |keep * seed| == caps.seeds)
  {
    hide First, Before, Ahead;
    var keep, d, s := Keep(down, seed, caps), First(down, caps.downloads), First(seed, caps.seeds);
    FirstIsPart(down, caps.downloads);
    FirstIsPart(seed, caps.seeds);
    assert Ordered(down) && Ordered(seed) && Ordered(d + s);
    LeftOut(down, caps.downloads, c);
    LeftOut(seed, caps.seeds, c);
    LeftOut(d + s, caps.total, c);
    if c !in d + s && (caps.total <= 0 || |d + s| <= caps.total) {
      FirstIsPart(d + s, caps.total);
      Smaller(keep, d + s);
      assert keep * down == d && keep * seed == s;
    }
  }

  /** Within a kind, whoever runs, everyone ahead of it runs too. */
  lemma {:induction false} KeepIsClosed(down: set<Candidate>, seed: set<Candidate>, caps: Caps, c: Candidate, d: Candidate)
    requires c in Keep(down, seed, caps) && Before(d, c) && down !! seed
    requires (c in down && d in down) || (c in seed && d in seed)
    ensures d in Keep(down, seed, caps)
  {
    var a, b := First(down, caps.downloads), First(seed, caps.seeds);
    if c in down {
      FirstIsClosed(down, caps.downloads, c, d);
    } else {
      FirstIsClosed(seed, caps.seeds, c, d);
    }
    FirstIsClosed(a + b, caps.total, c, d);
  }

  /** Across kinds, only a torrent's own cap lets a later one run in its place. */
  lemma {:induction false} OverKindsOnlyByCap(down: set<Candidate>, seed: set<Candidate>, caps: Caps, c: Candidate, d: Candidate)
    requires c in Keep(down, seed, caps) && Before(d, c) && d in down + seed && d !in Keep(down, seed, caps)
    ensures d !in First(down, caps.downloads) && d !in First(seed, caps.seeds)
  {
    var both := First(down, caps.downloads) + First(seed, caps.seeds);
    if d in both {
      FirstIsClosed(both, caps.total, c, d);
    }
  }

  // ---------- the code that decides ----------

  ghost predicate Sorted(cs: seq<Candidate>) {
    forall i, j :: 0 <= i < j < |cs| ==> Before(cs[i], cs[j])
  }

  function SetOf(cs: seq<Candidate>): (s: set<Candidate>) {
    set c | c in cs
  }

  ghost predicate NoRepeats(cs: seq<Candidate>) {
    forall i, j :: 0 <= i < j < |cs| ==> cs[i] != cs[j]
  }

  lemma {:induction false} Joined(a: seq<Candidate>, b: seq<Candidate>)
    requires NoRepeats(a) && NoRepeats(b) && SetOf(a) !! SetOf(b)
    ensures NoRepeats(a + b) && SetOf(a + b) == SetOf(a) + SetOf(b)
  {
    forall i, j | 0 <= i < |a| && 0 <= j < |b| ensures a[i] != b[j] {
      assert a[i] in SetOf(a) && b[j] in SetOf(b);
    }
  }

  /** sortByPriority. */
  method SortByPriority(cs: seq<Candidate>) returns (out: seq<Candidate>)
    requires Ordered(SetOf(cs)) && NoRepeats(cs)
    ensures Sorted(out) && SetOf(out) == SetOf(cs) && |out| == |cs|
  {
    out := [];
    for i := 0 to |cs|
      invariant Sorted(out) && SetOf(out) == SetOf(cs[..i]) && |out| == i
    {
      assert cs[..i + 1] == cs[..i] + [cs[i]];
      assert cs[i] !in cs[..i];
      forall c | c in out ensures c in cs[..i] && c in SetOf(cs) {
        assert c in SetOf(out);
      }
      assert cs[i] in SetOf(cs);
      out := InsertByPriority(out, cs[i]);
    }
    assert cs[..|cs|] == cs;
  }

  method InsertByPriority(cs: seq<Candidate>, c: Candidate) returns (out: seq<Candidate>)
    requires Sorted(cs) && forall d :: d in cs ==> d.queuePos != c.queuePos
    ensures Sorted(out) && SetOf(out) == SetOf(cs) + {c} && |out| == |cs| + 1
  {
    var k := 0;
    while k < |cs| && Before(cs[k], c)
      invariant 0 <= k <= |cs| && forall i :: 0 <= i < k ==> Before(cs[i], c)
    {
      k := k + 1;
    }
    out := cs[..k] + [c] + cs[k..];
    forall i | k <= i < |cs| ensures Before(c, cs[i]) {
      assert cs[i] in cs && cs[k] in cs;
    }
    assert cs == cs[..k] + cs[k..];
  }

  /** selectAllowed. */
  function SelectAllowed(cs: seq<Candidate>, max: int): (kept: seq<Candidate>) {
    if max <= 0 || max >= |cs| then cs else cs[..max]
  }

  lemma {:induction false} AheadIsPrefix(cs: seq<Candidate>, i: nat)
    requires Sorted(cs) && i < |cs|
    ensures Ahead(SetOf(cs), cs[i]) == SetOf(cs[..i]) && |SetOf(cs[..i])| == i
  {
    forall d | d in Ahead(SetOf(cs), cs[i]) ensures d in cs[..i] {
      var j :| 0 <= j < |cs| && cs[j] == d;
      assert forall k :: i < k < |cs| ==> Before(cs[i], cs[k]);
      if j < i {
        assert cs[..i][j] == d;
      }
    }
    SortedSize(cs, i);
  }

  lemma {:induction false} SortedSize(cs: seq<Candidate>, i: nat)
    requires Sorted(cs) && i <= |cs|
    ensures |SetOf(cs[..i])| == i
  {
    hide SetOf, Sorted, Before;
    if i == 0 {
      NoneFirst(cs);
    } else {
      SortedSize(cs, i - 1);
      NewLast(cs, i - 1);
    }
  }

  lemma {:induction false} NoneFirst(cs: seq<Candidate>)
    ensures SetOf(cs[..0]) == {}
  {
  }

  lemma {:induction false} NewLast(cs: seq<Candidate>, k: nat)
    requires Sorted(cs) && k < |cs|
    ensures cs[k] !in SetOf(cs[..k]) && SetOf(cs[..k + 1]) == SetOf(cs[..k]) + {cs[k]}
  {
    assert cs[..k + 1] == cs[..k] + [cs[k]];
    forall c | c in cs[..k] ensures c != cs[k] {
      assert Before(c, cs[k]);
    }
  }

  /** On a sorted list, selectAllowed takes the first by priority. */
  lemma {:induction false} SelectAllowedIsFirst(cs: seq<Candidate>, max: int)
    requires Sorted(cs)
    ensures SetOf(SelectAllowed(cs, max)) == First(SetOf(cs), max) && Sorted(SelectAllowed(cs, max))
  {
    var kept := SelectAllowed(cs, max);
    forall i | 0 <= i < |cs| ensures cs[i] in First(SetOf(cs), max) <==> (max <= 0 || i < max) {
      AheadIsPrefix(cs, i);
    }
    forall c | c in First(SetOf(cs), max) ensures c in kept {
      var i :| 0 <= i < |cs| && cs[i] == c;
      assert kept[i] == c;
    }
    forall c | c in kept ensures c in First(SetOf(cs), max) {
      var i :| 0 <= i < |kept| && kept[i] == c;
      assert cs[i] == c;
    }
  }

  /** capTotal: what is kept of each kind once both compete for the total. */
  method CapTotal(keepDown: seq<Candidate>, keepSeed: seq<Candidate>, maxTotal: int) returns (newDown: seq<Candidate>, newSeed: seq<Candidate>)
    requires maxTotal > 0 && Sorted(keepDown) && Sorted(keepSeed) && SetOf(keepDown) !! SetOf(keepSeed) && Ordered(SetOf(keepDown) + SetOf(keepSeed))
    ensures SetOf(newDown) + SetOf(newSeed) == First(SetOf(keepDown) + SetOf(keepSeed), maxTotal)
    ensures SetOf(newDown) <= SetOf(keepDown) && SetOf(newSeed) <= SetOf(keepSeed)
  {
    SortedHasNoRepeats(keepDown);
    SortedHasNoRepeats(keepSeed);
    Joined(keepDown, keepSeed);
    var combined := SortByPriority(keepDown + keepSeed);
    SelectAllowedIsFirst(combined, maxTotal);
    if |combined| > maxTotal {
      combined := combined[..maxTotal];
    }
    newDown := Filter(keepDown, combined);
    newSeed := Filter(keepSeed, combined);
  }

  lemma {:induction false} SortedHasNoRepeats(cs: seq<Candidate>)
    requires Sorted(cs)
    ensures NoRepeats(cs)
  {
    assert forall c: Candidate :: !Before(c, c);
  }

  method Filter(cs: seq<Candidate>, allowed: seq<Candidate>) returns (out: seq<Candidate>)
    ensures SetOf(out) == SetOf(cs) * SetOf(allowed)
  {
    out := [];
    for i := 0 to |cs|
      invariant SetOf(out) == SetOf(cs[..i]) * SetOf(allowed)
    {
      assert cs[..i + 1] == cs[..i] + [cs[i]];
      assert SetOf(cs[..i + 1]) == SetOf(cs[..i]) + {cs[i]};
      if cs[i] in allowed {
        assert SetOf(out + [cs[i]]) == SetOf(out) + {cs[i]};
        out := out + [cs[i]];
      }
    }
    assert cs[..|cs|] == cs;
  }

  // ---------- the fleet ----------

  function CandidateOf(h: Hash, m: Managed): (c: Candidate) {
    Candidate(h, m.queuePos, m.forceStart)
  }

  /** The torrents the queue acts on: those running, and those it paused itself. */
  predicate IsCandidate(m: Managed) {
    m.status == Downloading || m.status == Seeding || (m.status == Paused && m.queueHeld)
  }

  function Down(fleet: Fleet): (cs: set<Candidate>) {
    set h | h in fleet && IsCandidate(fleet[h]) && fleet[h].left > 0 :: CandidateOf(h, fleet[h])
  }

  function Seeds(fleet: Fleet): (cs: set<Candidate>) {
    set h | h in fleet && IsCandidate(fleet[h]) && fleet[h].left == 0 :: CandidateOf(h, fleet[h])
  }

  ghost predicate DistinctPositions(fleet: Fleet) {
    forall g, h :: g in fleet && h in fleet && g != h ==> fleet[g].queuePos != fleet[h].queuePos
  }

  lemma {:induction false} CandidatesOrdered(fleet: Fleet)
    requires DistinctPositions(fleet)
    ensures Ordered(Down(fleet) + Seeds(fleet)) && Down(fleet) !! Seeds(fleet)
  {
  }

  predicate Unlimited(caps: Caps) {
    caps.downloads == 0 && caps.seeds == 0 && caps.total == 0
  }

  function KeepOf(fleet: Fleet, caps: Caps): (keep: set<Candidate>) {
    Keep(Down(fleet), Seeds(fleet), caps)
  }

  predicate Running(m: Managed) {
    m.status == Downloading || m.status == Seeding
  }

  /** The torrents a pass calls Pause or Resume on. */
  predicate IsCalled(fleet: Fleet, caps: Caps, h: Hash)
    requires h in fleet
  {
    !Unlimited(caps) && IsCandidate(fleet[h]) && (CandidateOf(h, fleet[h]) in KeepOf(fleet, caps)) != Running(fleet[h])
  }

  function Toggled(m: Managed): (m': Managed) {
    if !m.responds then m
    else if Running(m) then m.(status := Paused, queueHeld := true)
    else m.(status := if m.complete then Seeding else Downloading, queueHeld := false)
  }

  /** The fleet after a pass. */
  function Reevaluated(fleet: Fleet, caps: Caps): (fleet': Fleet) {
    map h | h in fleet :: if IsCalled(fleet, caps, h) then Toggled(fleet[h]) else fleet[h]
  }

  // ---------- pausing and resuming from outside the queue ----------

  predicate Active(m: Managed) {
    m.status != Paused && m.status != Failed
  }

  /** Torrent.Pause called by anyone but the queue: the flag is not touched. */
  function OutsidePaused(m: Managed): (m': Managed)
  {
    if m.responds && Active(m) then m.(status := Paused) else m
  }

  /** Torrent.Resume called by anyone but the queue; without metadata the torrent goes back to fetching it. */
  function OutsideResumed(m: Managed, metadata: bool): (m': Managed)
  {
    if m.responds && m.status == Paused then m.(status := if !metadata then FetchingMetadata else if m.complete then Seeding else Downloading)
    else m
  }

  // ---------- passes and candidates ----------

  /** A pass leaves the candidates what they were. */
  lemma {:induction false} SameCandidates(fleet: Fleet, caps: Caps)
    ensures var after := Reevaluated(fleet, caps); Down(after) == Down(fleet) && Seeds(after) == Seeds(fleet)
  {
    hide KeepOf;
    var after := Reevaluated(fleet, caps);
    forall h | h in fleet
      ensures IsCandidate(after[h]) == IsCandidate(fleet[h]) && after[h].left == fleet[h].left && CandidateOf(h, after[h]) == CandidateOf(h, fleet[h])
    {
    }
    assert after.Keys == fleet.Keys;
  }

  /** A second pass calls on exactly those torrents of the first that did not respond: on none if all did. */
  lemma {:induction false} SecondPassIsQuiet(fleet: Fleet, caps: Caps, h: Hash)
    requires h in fleet
    ensures IsCalled(Reevaluated(fleet, caps), caps, h) <==> IsCalled(fleet, caps, h) && !fleet[h].responds
  {
    SameCandidates(fleet, caps);
    hide Keep, Down, Seeds;
  }

  /** What is paused with its flag down, or is not ready to run, stays exactly as it is; after a pass the candidates that respond run exactly when kept. */
  lemma {:induction false} PassMeans(fleet: Fleet, caps: Caps, h: Hash)
    requires h in fleet
    ensures var after := Reevaluated(fleet, caps);
            && (!IsCandidate(fleet[h]) ==> after[h] == fleet[h])
            && (!Unlimited(caps) && IsCandidate(fleet[h]) && fleet[h].responds ==>
                 (Running(after[h]) <==> CandidateOf(h, fleet[h]) in KeepOf(fleet, caps)))
            && after[h].queuePos == fleet[h].queuePos && after[h].forceStart == fleet[h].forceStart
            && (Running(after[h]) && !Running(fleet[h]) ==> after[h].status == (if fleet[h].complete then Seeding else Downloading) && !after[h].queueHeld)
            && (!Running(after[h]) && Running(fleet[h]) ==> after[h].status == Paused && after[h].queueHeld)
  {
    hide KeepOf;
  }

  function RunningIn(fleet: Fleet): (cs: set<Candidate>) {
    set h | h in fleet && Running(fleet[h]) :: CandidateOf(h, fleet[h])
  }

  /** When every torrent responds, exactly the kept ones run after a pass. */
  lemma {:induction false} ExactlyTheKeptRun(fleet: Fleet, caps: Caps)
    requires DistinctPositions(fleet) && !Unlimited(caps) && forall h :: h in fleet && IsCandidate(fleet[h]) ==> fleet[h].responds
    ensures RunningIn(Reevaluated(fleet, caps)) == KeepOf(fleet, caps)
  {
    CandidatesOrdered(fleet);
    KeepObeysCaps(Down(fleet), Seeds(fleet), caps);
    var after, keep := Reevaluated(fleet, caps), KeepOf(fleet, caps);
    hide Keep, KeepOf;
    forall c | c in keep ensures c in RunningIn(after) {
      assert c in Down(fleet) + Seeds(fleet);
      PassMeans(fleet, caps, c.hash);
    }
    forall c | c in RunningIn(after) ensures c in keep {
      PassMeans(fleet, caps, c.hash);
    }
  }

  /** Of two torrents of one kind that the queue may act on, one runs and the other not only if it is forced, or comes first in the queue. */
  lemma {:induction false} NobodyOvertakes(fleet: Fleet, caps: Caps, g: Hash, h: Hash)
    requires g in fleet && h in fleet && g != h && fleet[g].responds && fleet[h].responds && (fleet[g].left == 0 <==> fleet[h].left == 0)
    requires DistinctPositions(fleet) && !(caps.downloads == 0 && caps.seeds == 0 && caps.total == 0)
    requires fleet[h].status == Downloading || fleet[h].status == Seeding || (fleet[h].status == Paused && fleet[h].queueHeld)
    requires var after := Reevaluated(fleet, caps);
             (after[g].status == Downloading || after[g].status == Seeding) && after[h].status == Paused
    ensures if fleet[g].forceStart != fleet[h].forceStart then fleet[g].forceStart else fleet[g].queuePos < fleet[h].queuePos
  {
    hide First;
    var c, d := CandidateOf(g, fleet[g]), CandidateOf(h, fleet[h]);
    PassMeans(fleet, caps, g);
    PassMeans(fleet, caps, h);
    CandidatesOrdered(fleet);
    hide Keep, Reevaluated;
    if Before(d, c) {
      KeepIsClosed(Down(fleet), Seeds(fleet), caps, c, d);
      assert false;
    }
  }

  /** After a pass in which everyone responds, no more torrents of each kind run than its cap allows, nor more in all than the cap on the total. */
  lemma {:induction false} RunningObeysCaps(fleet: Fleet, caps: Caps)
    requires DistinctPositions(fleet) && !Unlimited(caps) && forall h :: h in fleet && IsCandidate(fleet[h]) ==> fleet[h].responds
    ensures var after := Reevaluated(fleet, caps);
            && (caps.total > 0 ==> |RunningIn(after)| <= caps.total)
            && (caps.downloads > 0 ==> |set c | c in RunningIn(after) && c.hash in fleet && fleet[c.hash].left > 0| <= caps.downloads)
            && (caps.seeds > 0 ==> |set c | c in RunningIn(after) && c.hash in fleet && fleet[c.hash].left == 0| <= caps.seeds)
  {
    var keep, down, seeds := KeepOf(fleet, caps), Down(fleet), Seeds(fleet);
    ExactlyTheKeptRun(fleet, caps);
    CandidatesOrdered(fleet);
    KeepObeysCaps(down, seeds, caps);
    var running := RunningIn(Reevaluated(fleet, caps));
    hide Keep, KeepOf, Reevaluated, RunningIn;
    var downloading := set c | c in running && c.hash in fleet && fleet[c.hash].left > 0;
    var seeding := set c | c in running && c.hash in fleet && fleet[c.hash].left == 0;
    Smaller(downloading, keep * down);
    Smaller(seeding, keep * seeds);
  }

  // ---------- the engine ----------

  ghost predicate Snapshot(fleet: Fleet, rest: set<Hash>, down: seq<Candidate>, seed: seq<Candidate>) {
    && NoRepeats(down) && NoRepeats(seed)
    && SetOf(down) == (set h | h in fleet && h !in rest && IsCandidate(fleet[h]) && fleet[h].left > 0 :: CandidateOf(h, fleet[h]))
    && SetOf(seed) == (set h | h in fleet && h !in rest && IsCandidate(fleet[h]) && fleet[h].left == 0 :: CandidateOf(h, fleet[h]))
  }

  lemma {:induction false} SnapshotStep(fleet: Fleet, rest: set<Hash>, down: seq<Candidate>, seed: seq<Candidate>, h: Hash)
    requires Snapshot(fleet, rest, down, seed) && h in fleet && h in rest
    ensures var c := CandidateOf(h, fleet[h]);
            if !IsCandidate(fleet[h]) then Snapshot(fleet, rest - {h}, down, seed)
            else if fleet[h].left == 0 then Snapshot(fleet, rest - {h}, down, seed + [c])
            else Snapshot(fleet, rest - {h}, down + [c], seed)
  {
    var c := CandidateOf(h, fleet[h]);
    assert c !in SetOf(down) && c !in SetOf(seed);
    assert SetOf(down + [c]) == SetOf(down) + {c} && SetOf(seed + [c]) == SetOf(seed) + {c};
    forall i | 0 <= i < |down| ensures down[i] != c {
      assert down[i] in SetOf(down);
    }
    forall i | 0 <= i < |seed| ensures seed[i] != c {
      assert seed[i] in SetOf(seed);
    }
  }

  function Acted(m: Managed, want: bool): (m': Managed) {
    if want && m.status == Paused && m.responds then m.(status := if m.complete then Seeding else Downloading, queueHeld := false)
    else if !want && m.status != Paused && m.responds then m.(status := Paused, queueHeld := true)
    else m
  }

  /** The torrents in `done` have been called on where they should be, the others not yet. */
  ghost predicate Applied(fleet: Fleet, caps: Caps, cur: Fleet, done: seq<Candidate>) {
    && cur.Keys == fleet.Keys
    && forall h :: h in fleet ==>
         cur[h] == if CandidateOf(h, fleet[h]) in done && IsCalled(fleet, caps, h) then Toggled(fleet[h]) else fleet[h]
  }

  lemma {:induction false} NothingApplied(fleet: Fleet, caps: Caps)
    ensures Applied(fleet, caps, fleet, [])
  {
  }

  lemma {:induction false} InSetOf(cs: seq<Candidate>, c: Candidate)
    ensures c in cs <==> c in SetOf(cs)
  {
  }

  lemma {:induction false} AppliedStep(fleet: Fleet, caps: Caps, cur: Fleet, all: seq<Candidate>, i: nat, want: bool)
    requires i < |all| && Applied(fleet, caps, cur, all[..i]) && NoRepeats(all) && !Unlimited(caps)
    requires forall c :: c in all ==> c.hash in fleet && IsCandidate(fleet[c.hash]) && c == CandidateOf(c.hash, fleet[c.hash])
    requires want <==> all[i] in KeepOf(fleet, caps)
    ensures all[i].hash in cur && Applied(fleet, caps, cur[all[i].hash := Acted(cur[all[i].hash], want)], all[..i + 1])
  {
    hide KeepOf;
    var c := all[i];
    assert c in all && c !in all[..i];
    assert all[..i + 1] == all[..i] + [c];
    assert cur[c.hash] == fleet[c.hash];
    assert Acted(fleet[c.hash], want) == if IsCalled(fleet, caps, c.hash) then Toggled(fleet[c.hash]) else fleet[c.hash];
  }

  lemma {:induction false} AllApplied(fleet: Fleet, caps: Caps, cur: Fleet, all: seq<Candidate>)
    requires Applied(fleet, caps, cur, all)
    requires forall h :: h in fleet && IsCandidate(fleet[h]) ==> CandidateOf(h, fleet[h]) in all
    ensures cur == Reevaluated(fleet, caps)
    ensures cur.Keys == fleet.Keys && forall h :: h in fleet ==> cur[h].queuePos == fleet[h].queuePos
  {
    hide KeepOf;
  }

  lemma {:induction false} AllAreCandidates(fleet: Fleet, all: seq<Candidate>)
    requires SetOf(all) == Down(fleet) + Seeds(fleet)
    ensures forall c :: c in all ==> c.hash in fleet && IsCandidate(fleet[c.hash]) && c == CandidateOf(c.hash, fleet[c.hash])
    ensures forall h :: h in fleet && IsCandidate(fleet[h]) ==> CandidateOf(h, fleet[h]) in all
  {
    forall c | c in all ensures c.hash in fleet && IsCandidate(fleet[c.hash]) && c == CandidateOf(c.hash, fleet[c.hash]) {
      assert c in SetOf(all);
    }
    forall h | h in fleet && IsCandidate(fleet[h]) ensures CandidateOf(h, fleet[h]) in all {
      assert CandidateOf(h, fleet[h]) in SetOf(all);
    }
  }

  /** One torrent changed, its position kept. */
  lemma {:induction false} OneChanged(a: Fleet, h: Hash, m: Managed)
    requires h in a && m.queuePos == a[h].queuePos
    ensures |a[h := m]| == |a| && (DistinctPositions(a) ==> DistinctPositions(a[h := m]))
    ensures forall g :: g in a ==> a[h := m][g].queuePos == a[g].queuePos
  {
    SameSize(a, a[h := m]);
  }

  lemma {:induction false} SameSize(a: Fleet, b: Fleet)
    requires a.Keys == b.Keys
    ensures |a| == |b|
  {
    assert |a| == |a.Keys| && |b| == |b.Keys|;
  }

  lemma {:induction false} OneMoreTorrent(a: Fleet, h: Hash, m: Managed)
    requires h !in a
    ensures |a[h := m]| == |a| + 1
  {
    assert a[h := m].Keys == a.Keys + {h};
    assert |a[h := m]| == |a[h := m].Keys| && |a| == |a.Keys|;
  }

  lemma {:induction false} KeysShrink(a: Fleet, b: Fleet)
    requires b.Keys <= a.Keys
    ensures |b| <= |a|
  {
    assert |a| == |a.Keys| && |b| == |b.Keys|;
    assert a.Keys == b.Keys + (a.Keys - b.Keys);
  }

  /** A torrent as an entry of the queue, force-start aside. */
  function EntryOf(h: Hash, m: Managed): (c: Candidate) {
    Candidate(h, m.queuePos, false)
  }

  function Entries(fleet: Fleet): (cs: set<Candidate>) {
    set h | h in fleet :: EntryOf(h, fleet[h])
  }

  /** The number of torrents ahead of h in the queue: its place. */
  function Place(fleet: Fleet, h: Hash): (n: nat)
    requires h in fleet
  {
    |Ahead(Entries(fleet), EntryOf(h, fleet[h]))|
  }

  function Clamp(pos: int, last: int): (p: int) {
    if pos > last then last else if pos < 0 then 0 else pos
  }

  /** Where the k-th of a row ends up when the one at `from` is moved to `to`. */
  function Shifted(k: int, from: int, to: int): (k': int) {
    if k == from then to
    else
      var rest := if k < from then k else k - 1;
      if rest < to then rest else rest + 1
  }

  lemma {:induction false} ShiftRow(n: int, from: int, to: int, a: int, b: int)
    requires 0 <= from < n && 0 <= to < n && 0 <= a < n && 0 <= b < n
    ensures 0 <= Shifted(a, from, to) < n && (a != b ==> Shifted(a, from, to) != Shifted(b, from, to))
    ensures a != from && b != from ==> (Shifted(a, from, to) < Shifted(b, from, to) <==> a < b)
    ensures Shifted(from, from, to) == to && Shifted(Shifted(a, to, from), from, to) == a && 0 <= Shifted(a, to, from) < n
  {
  }

  /** The fleet with h moved to a position. */
  function MovedTo(fleet: Fleet, h: Hash, pos: int): (fleet': Fleet)
    requires h in fleet
  {
    var to := Clamp(pos, |fleet| - 1);
    map g | g in fleet :: fleet[g].(queuePos := Shifted(Place(fleet, g), Place(fleet, h), to))
  }

  lemma {:induction false} PlacesAreDistinct(fleet: Fleet, g: Hash, h: Hash)
    requires DistinctPositions(fleet) && g in fleet && h in fleet
    ensures Place(fleet, g) < Place(fleet, h) <==> fleet[g].queuePos < fleet[h].queuePos
    ensures Place(fleet, h) < |fleet|
  {
    var all, c, d := Entries(fleet), EntryOf(g, fleet[g]), EntryOf(h, fleet[h]);
    if fleet[g].queuePos < fleet[h].queuePos {
      assert c in Ahead(all, d) && c !in Ahead(all, c);
      Smaller(Ahead(all, c), Ahead(all, d));
    } else {
      Smaller(Ahead(all, d), Ahead(all, c));
    }
    EntriesSize(fleet);
    assert d in all && d !in Ahead(all, d);
    Smaller(Ahead(all, d), all);
  }

  lemma {:induction false} EntriesSize(fleet: Fleet)
    ensures |Entries(fleet)| == |fleet|
    decreases |fleet|
  {
    if fleet == map[] {
      assert Entries(fleet) == {};
    } else {
      var h := SomeMember(fleet.Keys);
      var rest := fleet - {h};
      assert rest.Keys == fleet.Keys - {h};
      assert |rest| == |rest.Keys| && |fleet| == |fleet.Keys|;
      EntriesSize(rest);
      assert Entries(fleet) == Entries(rest) + {EntryOf(h, fleet[h])};
    }
  }

  /** A permutation of 0..n-1: h is where it was asked to be, and the others keep their order. */
  lemma {:induction false} MoveIsPermutation(fleet: Fleet, h: Hash, pos: int)
    requires DistinctPositions(fleet) && h in fleet
    ensures var moved := MovedTo(fleet, h, pos);
            && moved.Keys == fleet.Keys && DistinctPositions(moved)
            && (forall g :: g in fleet ==> 0 <= moved[g].queuePos < |fleet|)
            && moved[h].queuePos == Clamp(pos, |fleet| - 1)
            && (forall g, k :: g in fleet && k in fleet && g != h && k != h ==>
                 (moved[g].queuePos < moved[k].queuePos <==> fleet[g].queuePos < fleet[k].queuePos))
  {
    hide Place, Shifted;
    var moved, n, from, to := MovedTo(fleet, h, pos), |fleet|, Place(fleet, h), Clamp(pos, |fleet| - 1);
    PlacesAreDistinct(fleet, h, h);
    forall g, k | g in fleet && k in fleet
      ensures 0 <= moved[g].queuePos < n && (g != k ==> moved[g].queuePos != moved[k].queuePos)
      ensures g != h && k != h ==> (moved[g].queuePos < moved[k].queuePos <==> fleet[g].queuePos < fleet[k].queuePos)
    {
      PlacesAreDistinct(fleet, g, k);
      PlacesAreDistinct(fleet, k, g);
      PlacesAreDistinct(fleet, g, h);
      PlacesAreDistinct(fleet, h, g);
      PlacesAreDistinct(fleet, k, h);
      PlacesAreDistinct(fleet, h, k);
      ShiftRow(n, from, to, Place(fleet, g), Place(fleet, k));
    }
    ShiftRow(n, from, to, from, from);
  }

  // ---------- what happens to a fleet ----------

  datatype State = State(fleet: Fleet, next: int)

  /**
   * What happens to a fleet. Change is anything a torrent does on its own (it completes, fails, is
   * checked, reaches its seed limit, stops answering); positions and flags are not its to change.
   */
  datatype Action =
    | Add(h: Hash, m: Managed)
    | Remove(h: Hash)
    | Pause(h: Hash)
    | Resume(h: Hash, metadata: bool)
    | Change(h: Hash, m: Managed)
    | Reposition(h: Hash, pos: int)
    | Force(h: Hash, force: bool)
    | Pass

  /** The fleet before the pass that an action ends with, if it ends with one. */
  function ToPass(s: State, a: Action): (fleet: Option<Fleet>) {
    match a
    case Pass => Some(s.fleet)
    case Reposition(h, pos) => if h in s.fleet then Some(MovedTo(s.fleet, h, pos)) else None
    case Force(h, force) => if h in s.fleet then Some(s.fleet[h := s.fleet[h].(forceStart := force)]) else None
    case _ => None
  }

  function Changed(m: Managed, to: Managed): (m': Managed) {
    m.(status := to.status, left := to.left, complete := to.complete, responds := to.responds)
  }

  /** The fleet after an action without a pass. */
  function Direct(s: State, a: Action): (s': State) {
    match a
    case Add(h, m) =>
      if h in s.fleet then s else State(s.fleet[h := m.(queuePos := s.next, forceStart := false, queueHeld := false)], s.next + 1)
    case Remove(h) => s.(fleet := s.fleet - {h})
    case Pause(h) => if h in s.fleet then s.(fleet := s.fleet[h := OutsidePaused(s.fleet[h])]) else s
    case Resume(h, metadata) => if h in s.fleet then s.(fleet := s.fleet[h := OutsideResumed(s.fleet[h], metadata)]) else s
    case Change(h, m) => if h in s.fleet then s.(fleet := s.fleet[h := Changed(s.fleet[h], m)]) else s
    case _ => s
  }

  function Next(s: State, caps: Caps, a: Action): (s': State) {
    match ToPass(s, a)
    case Some(fleet) => s.(fleet := Reevaluated(fleet, caps))
    case None => Direct(s, a)
  }

  lemma {:induction false} NoCapsNoPass(fleet: Fleet, caps: Caps)
    requires Unlimited(caps)
    ensures Reevaluated(fleet, caps) == fleet
  {
  }

  lemma {:induction false} NextByQueue(s: State, caps: Caps, h: Hash, pos: int)
    ensures Next(s, caps, Pass) == State(Reevaluated(s.fleet, caps), s.next)
    ensures Next(s, caps, Reposition(h, pos)) == if h in s.fleet then State(Reevaluated(MovedTo(s.fleet, h, pos), caps), s.next) else s
  {
  }

  lemma {:induction false} NextByHand(s: State, caps: Caps, h: Hash, metadata: bool)
    ensures Next(s, caps, Pause(h)) == if h in s.fleet then State(s.fleet[h := OutsidePaused(s.fleet[h])], s.next) else s
    ensures Next(s, caps, Resume(h, metadata)) == if h in s.fleet then State(s.fleet[h := OutsideResumed(s.fleet[h], metadata)], s.next) else s
  {
  }

  class Engine {
    const caps: Caps
    var torrents: Fleet
    var nextQueuePos: int

    ghost function Now(): State
      reads this
    {
      State(torrents, nextQueuePos)
    }

    /** Positions are handed out once, so no two torrents share one. */
    ghost predicate Valid()
      reads this
    {
      DistinctPositions(torrents) && |torrents| <= nextQueuePos && forall h :: h in torrents ==> 0 <= torrents[h].queuePos < nextQueuePos
    }

    constructor (caps: Caps)
      ensures Valid() && torrents == map[] && this.caps == caps
    {
      this.caps := caps;
      torrents, nextQueuePos := map[], 0;
    }

    /** The queue's part of Add; a hash already managed is refused. */
    method Add(h: Hash, m: Managed) returns (ok: bool)
      requires Valid()
      modifies this
      ensures Valid() && ok == (h !in old(torrents)) && (!ok ==> torrents == old(torrents))
      ensures ok ==> torrents == old(torrents)[h := m.(queuePos := old(nextQueuePos), forceStart := false, queueHeld := false)]
      ensures Now() == Next(old(Now()), caps, Action.Add(h, m))
    {
      if h in torrents {
        return false;
      }
      OneMoreTorrent(torrents, h, m.(queuePos := nextQueuePos, forceStart := false, queueHeld := false));
      torrents := torrents[h := m.(queuePos := nextQueuePos, forceStart := false, queueHeld := false)];
      nextQueuePos := nextQueuePos + 1;
      ok := true;
    }

    method Remove(h: Hash)
      requires Valid()
      modifies this
      ensures Valid() && torrents == old(torrents) - {h}
      ensures Now() == Next(old(Now()), caps, Action.Remove(h))
    {
      torrents := torrents - {h};
      KeysShrink(old(torrents), torrents);
    }

    method SetForceStart(h: Hash, force: bool) returns (ok: bool)
      requires Valid()
      modifies this
      ensures Valid() && ok == (h in old(torrents)) && (!ok ==> torrents == old(torrents))
      ensures ok ==> torrents == Reevaluated(old(torrents)[h := old(torrents)[h].(forceStart := force)], caps)
      ensures Now() == Next(old(Now()), caps, Action.Force(h, force))
    {
      hide DistinctPositions, Reevaluated;
      if h !in torrents {
        return false;
      }
      OneChanged(torrents, h, torrents[h].(forceStart := force));
      torrents := torrents[h := torrents[h].(forceStart := force)];
      ReevaluateQueue();
      ok := true;
    }

    /** Torrent.Pause through Get: one torrent stops, and the engine takes no note of it. */
    method Pause(h: Hash) returns (ok: bool)
      requires Valid()
      modifies this`torrents
      ensures Valid() && ok == (h in old(torrents) && old(torrents)[h].responds)
      ensures torrents == if h in old(torrents) then old(torrents)[h := OutsidePaused(old(torrents)[h])] else old(torrents)
      ensures Now() == Next(old(Now()), caps, Action.Pause(h))
    {
      hide Next, DistinctPositions;
      NextByHand(Now(), caps, h, true);
      if h !in torrents {
        return false;
      }
      var m := torrents[h];
      ok := m.responds;
      if ok && m.status != Paused && m.status != Failed {
        m := m.(status := Paused);
      }
      OneChanged(torrents, h, m);
      torrents := torrents[h := m];
    }

    /** Torrent.Resume through Get. */
    method Resume(h: Hash, metadata: bool) returns (ok: bool)
      requires Valid()
      modifies this`torrents
      ensures Valid() && ok == (h in old(torrents) && old(torrents)[h].responds)
      ensures torrents == if h in old(torrents) then old(torrents)[h := OutsideResumed(old(torrents)[h], metadata)] else old(torrents)
      ensures Now() == Next(old(Now()), caps, Action.Resume(h, metadata))
    {
      hide Next, DistinctPositions;
      NextByHand(Now(), caps, h, metadata);
      if h !in torrents {
        return false;
      }
      var m := torrents[h];
      ok := m.responds;
      if ok && m.status == Paused {
        if !metadata {
          m := m.(status := FetchingMetadata);
        } else if m.complete {
          m := m.(status := Seeding);
        } else {
          m := m.(status := Downloading);
        }
      }
      OneChanged(torrents, h, m);
      torrents := torrents[h := m];
    }

    /** reevaluateQueue. */
    method ReevaluateQueue()
      requires Valid()
      modifies this`torrents
      ensures Valid() && torrents == Reevaluated(old(torrents), caps)
      ensures Now() == Next(old(Now()), caps, Action.Pass)
    {
      hide Next, DistinctPositions, Reevaluated, Ordered, Down, Seeds;
      NextByQueue(Now(), caps, "", 0);
      if caps.downloads == 0 && caps.seeds == 0 && caps.total == 0 {
        NoCapsNoPass(torrents, caps);
        return;
      }
      CandidatesOrdered(torrents);
      var down, seed := Candidates();
      var sortedDown := SortByPriority(down);
      var sortedSeed := SortByPriority(seed);
      SelectAllowedIsFirst(sortedDown, caps.downloads);
      SelectAllowedIsFirst(sortedSeed, caps.seeds);
      var keepDown, keepSeed := SelectAllowed(sortedDown, caps.downloads), SelectAllowed(sortedSeed, caps.seeds);
      ghost var both := SetOf(keepDown) + SetOf(keepSeed);
      if caps.total > 0 {
        assert both <= SetOf(sortedDown) + SetOf(sortedSeed);
        keepDown, keepSeed := CapTotal(keepDown, keepSeed, caps.total);
      } else {
        assert both == First(both, caps.total);
      }
      assert SetOf(keepDown + keepSeed) == SetOf(keepDown) + SetOf(keepSeed);
      Joined(down, seed);
      Apply(down + seed, keepDown + keepSeed);
    }

    /** The snapshot: candidates of each kind. */
    method Candidates() returns (down: seq<Candidate>, seed: seq<Candidate>)
      requires Valid()
      ensures SetOf(down) == Down(torrents) && SetOf(seed) == Seeds(torrents)
      ensures NoRepeats(down) && NoRepeats(seed)
    {
      var rest := torrents.Keys;
      down, seed := [], [];
      while rest != {}
        invariant rest <= torrents.Keys
        invariant Snapshot(torrents, rest, down, seed)
        decreases |rest|
      {
        ghost var w := SomeMember(rest);
        var h :| h in rest;
        var m := torrents[h];
        SnapshotStep(torrents, rest, down, seed, h);
        if IsCandidate(m) {
          if m.left == 0 {
            seed := seed + [CandidateOf(h, m)];
          } else {
            down := down + [CandidateOf(h, m)];
          }
        }
        rest := rest - {h};
      }
    }

    /** The loop that resumes and pauses. */
    method Apply(all: seq<Candidate>, keep: seq<Candidate>)
      requires NoRepeats(all) && SetOf(all) == Down(torrents) + Seeds(torrents) && SetOf(keep) == KeepOf(torrents, caps) && !Unlimited(caps)
      requires Valid()
      modifies this`torrents
      ensures Valid() && torrents == Reevaluated(old(torrents), caps)
    {
      hide KeepOf, Down, Seeds, Before, Applied, SetOf;
      ghost var fleet := torrents;
      AllAreCandidates(fleet, all);
      NothingApplied(fleet, caps);
      for i := 0 to |all|
        invariant Applied(fleet, caps, torrents, all[..i])
      {
        ghost var cur := torrents;
        InSetOf(keep, all[i]);
        AppliedStep(fleet, caps, cur, all, i, all[i] in keep);
        ResumeOrPause(all[i], all[i] in keep);
        assert all[..i + 1] == all[..i] + [all[i]];
      }
      assert all[..|all|] == all;
      AllApplied(fleet, caps, torrents, all);
      SameSize(fleet, torrents);
    }

    /** One torrent resumed, paused or left as it is; one that does not respond is passed over. */
    method ResumeOrPause(c: Candidate, want: bool)
      requires c.hash in torrents
      modifies this`torrents
      ensures torrents == old(torrents)[c.hash := Acted(old(torrents)[c.hash], want)]
    {
      var m := torrents[c.hash];
      if want && m.status == Paused && m.responds {
        m := m.(status := if m.complete then Seeding else Downloading);
        m := m.(queueHeld := false);
      } else if !want && m.status != Paused && m.responds {
        m := m.(status := Paused);
        m := m.(queueHeld := true);
      }
      torrents := torrents[c.hash := m];
    }

    /** SetQueuePosition, followed by a pass. */
    method SetQueuePosition(h: Hash, pos: int) returns (ok: bool)
      requires Valid()
      modifies this
      ensures Valid() && ok == (h in old(torrents)) && (!ok ==> torrents == old(torrents))
      ensures ok ==> torrents == Reevaluated(MovedTo(old(torrents), h, pos), caps)
      ensures Now() == Next(old(Now()), caps, Action.Reposition(h, pos))
    {
      hide DistinctPositions, Place, Shifted, Reevaluated, IsRow, MovedTo, Renumbered, Next;
      NextByQueue(Now(), caps, h, pos);
      if h !in torrents {
        return false;
      }
      ghost var fleet := torrents;
      var entries := QueueOrder();
      PlacesInRow(fleet, entries);
      var idx := FindEntry(entries, h);
      var moved := entries[idx];
      var rest := entries[..idx] + entries[idx + 1..];
      var p := pos;
      if p < 0 {
        p := 0;
      }
      if p > |rest| {
        p := |rest|;
      }
      var final := rest[..p] + [moved] + rest[p..];
      AllShift(entries, idx, p);
      Renumber(final, entries, idx, p);
      RowIsMoved(fleet, entries, idx, pos, p, torrents);
      MoveIsPermutation(fleet, h, pos);
      SameSize(fleet, torrents);
      ReevaluateQueue();
      ok := true;
    }

    /** The loop that writes the new positions. */
    method Renumber(final: seq<Candidate>, ghost entries: seq<Candidate>, ghost idx: int, ghost p: int)
      requires IsRow(torrents, entries) && |final| == |entries| && 0 <= idx < |entries| && 0 <= p < |entries|
      requires forall k :: 0 <= k < |entries| ==> 0 <= Shifted(k, idx, p) < |final| && final[Shifted(k, idx, p)] == entries[k]
      modifies this`torrents
      ensures torrents.Keys == old(torrents).Keys
      ensures Renumbered(old(torrents), torrents, entries, idx, p, |final|)
    {
      hide Shifted;
      ghost var fleet := torrents;
      RowHashes(fleet, entries);
      for i := 0 to |final|
        invariant torrents.Keys == fleet.Keys
        invariant Renumbered(fleet, torrents, entries, idx, p, i)
      {
        ghost var k := Shifted(i, p, idx);
        forall l | 0 <= l < |entries| ensures l != k ==> Shifted(l, idx, p) != i {
          ShiftRow(|entries|, idx, p, i, i);
          ShiftRow(|entries|, idx, p, k, l);
        }
        ShiftRow(|entries|, idx, p, i, i);
        torrents := torrents[final[i].hash := torrents[final[i].hash].(queuePos := i)];
      }
    }

    /** Every torrent, by queue position. */
    method QueueOrder() returns (entries: seq<Candidate>)
      requires Valid()
      ensures IsRow(torrents, entries)
    {
      var rest := torrents.Keys;
      entries := [];
      while rest != {}
        invariant rest <= torrents.Keys && Sorted(entries)
        invariant SetOf(entries) == set h | h in torrents && h !in rest :: EntryOf(h, torrents[h])
        decreases |rest|
      {
        ghost var w := SomeMember(rest);
        var h :| h in rest;
        forall d | d in entries ensures d.queuePos != torrents[h].queuePos {
          assert d in SetOf(entries);
        }
        entries := InsertByPriority(entries, EntryOf(h, torrents[h]));
        rest := rest - {h};
      }
    }
  }

  method FindEntry(entries: seq<Candidate>, h: Hash) returns (idx: int)
    requires exists i :: 0 <= i < |entries| && entries[i].hash == h
    ensures 0 <= idx < |entries| && entries[idx].hash == h
  {
    idx := 0;
    while entries[idx].hash != h
      invariant 0 <= idx < |entries| && forall j :: 0 <= j < idx ==> entries[j].hash != h
      decreases |entries| - idx
    {
      idx := idx + 1;
    }
  }

  /** The whole fleet in queue order. */
  ghost predicate IsRow(fleet: Fleet, entries: seq<Candidate>) {
    Sorted(entries) && SetOf(entries) == Entries(fleet)
  }

  lemma {:induction false} RowHashes(fleet: Fleet, entries: seq<Candidate>)
    requires IsRow(fleet, entries)
    ensures forall k :: 0 <= k < |entries| ==> entries[k].hash in fleet && entries[k] == EntryOf(entries[k].hash, fleet[entries[k].hash])
    ensures forall k, l :: 0 <= k < |entries| && 0 <= l < |entries| && entries[k].hash == entries[l].hash ==> k == l
    ensures forall h :: h in fleet ==> exists k :: 0 <= k < |entries| && entries[k].hash == h
  {
    forall k | 0 <= k < |entries| ensures entries[k].hash in fleet && entries[k] == EntryOf(entries[k].hash, fleet[entries[k].hash]) {
      assert entries[k] in SetOf(entries);
    }
    forall k, l | 0 <= k < l < |entries| ensures entries[k].hash != entries[l].hash {
      assert Before(entries[k], entries[l]);
    }
    forall h | h in fleet ensures exists k :: 0 <= k < |entries| && entries[k].hash == h {
      assert EntryOf(h, fleet[h]) in SetOf(entries);
    }
  }

  /** In queue order, the place of a torrent is its index. */
  lemma {:induction false} PlacesInRow(fleet: Fleet, entries: seq<Candidate>)
    requires IsRow(fleet, entries)
    ensures |entries| == |fleet|
    ensures forall k :: 0 <= k < |entries| ==> entries[k].hash in fleet && Place(fleet, entries[k].hash) == k
    ensures forall h :: h in fleet ==> exists k :: 0 <= k < |entries| && entries[k].hash == h
  {
    RowHashes(fleet, entries);
    forall k | 0 <= k < |entries| ensures Place(fleet, entries[k].hash) == k {
      AheadIsPrefix(entries, k);
    }
    SortedSize(entries, |entries|);
    assert entries[..|entries|] == entries;
    EntriesSize(fleet);
  }

  /** The torrents whose new position is below n have been given it. */
  ghost predicate Renumbered(fleet: Fleet, fleet': Fleet, entries: seq<Candidate>, idx: int, p: int, n: int) {
    forall k :: 0 <= k < |entries| ==>
      && entries[k].hash in fleet && entries[k].hash in fleet'
      && fleet'[entries[k].hash] == if Shifted(k, idx, p) < n then fleet[entries[k].hash].(queuePos := Shifted(k, idx, p)) else fleet[entries[k].hash]
  }

  /** Taking one out and putting it back elsewhere is the shift. */
  lemma {:induction false} AllShift(entries: seq<Candidate>, idx: int, p: int)
    requires 0 <= idx < |entries| && 0 <= p < |entries|
    ensures var rest := entries[..idx] + entries[idx + 1..];
            var final := rest[..p] + [entries[idx]] + rest[p..];
            && |final| == |entries|
            && (forall k :: 0 <= k < |entries| ==> 0 <= Shifted(k, idx, p) < |final| && final[Shifted(k, idx, p)] == entries[k])
  {
  }

  lemma {:induction false} RowIsMoved(fleet: Fleet, entries: seq<Candidate>, idx: int, pos: int, to: int, after: Fleet)
    requires to == Clamp(pos, |entries| - 1)
    requires IsRow(fleet, entries) && 0 <= idx < |entries| && after.Keys == fleet.Keys
    requires Renumbered(fleet, after, entries, idx, to, |entries|)
    requires forall k :: 0 <= k < |entries| ==> Shifted(k, idx, to) < |entries|
    ensures after == MovedTo(fleet, entries[idx].hash, pos)
  {
    hide Place, Shifted, Clamp;
    PlacesInRow(fleet, entries);
  }
}
