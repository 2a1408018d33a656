/** The cache of open file handles: internal/storage/handles.go. */
module Handles {
  import opened Bytes

  /** One open file; `closes` is how often Close has been called on it. */
  class Entry {
    const path: string
    const writable: bool
    var refs: int
    var evicted: bool
    var closes: nat
    /** When it was last acquired, counting acquires. */
    ghost var used: nat

    constructor (path: string, writable: bool)
      ensures this.path == path && this.writable == writable && refs == 1 && !evicted && closes == 0
    {
      this.path, this.writable := path, writable;
      refs, evicted, closes, used := 1, false, 0, 0;
    }

    /** Whether the file is open. */
    predicate Open()
      reads this
    {
      closes == 0
    }

    /** An entry leaves the cache before its file is closed, and the file is closed once: when nobody holds it. */
    ghost predicate Sound()
      reads this
    {
      refs >= 0 && closes == if evicted && refs == 0 then 1 else 0
    }
  }

  class HandleCache {
    const max: int
    /** Front is most recently used. */
    var lru: seq<Entry>
    var byPath: map<string, Entry>
    /** Every entry ever handed out. */
    ghost var issued: set<Entry>
    /** How many acquires have succeeded. */
    ghost var clock: nat

    ghost predicate Valid()
      reads this, issued
    {
      && max > 0
      && Bijection(lru, byPath)
      && (forall e :: e in lru ==> e in issued)
      && ByRecency(lru, clock)
      && (forall e :: e in issued ==> e.Sound() && (e.evicted <==> e !in lru))
    }

    constructor (max: int)
      ensures Valid() && issued == {} && this.max == if max <= 0 then 64 else max
    {
      this.max := if max <= 0 then 64 else max;
      lru, byPath, issued, clock := [], map[], {}, 0;
    }

    /** acquire; opening the file may fail. */
    method Acquire(path: string, write: bool, canOpen: bool) returns (r: Option<Entry>)
      requires Valid()
      modifies this, issued
      ensures Valid() && old(issued) <= issued && fresh(issued - old(issued))
      ensures r.None? ==> !canOpen && issued == old(issued) && forall e :: e in issued ==> e.refs == old(e.refs)
      ensures r.Some? ==> r.value in issued && r.value.path == path && (write ==> r.value.writable) && r.value.Open() && lru != [] && r.value in lru
      ensures r.Some? ==> r.value.refs == if r.value in old(issued) then old(r.value.refs) + 1 else 1
      ensures path in old(byPath) && (!write || old(byPath)[path].writable) ==> r == Some(old(byPath)[path])
      ensures r.Some? ==> forall e :: e in old(issued) && e != r.value ==> e.refs == old(e.refs)
      ensures r.Some? && r.value !in old(issued) ==> Trimmed(lru, max)
      // the one acquired is the last used; whoever was dropped to make room was idle, and used before every idle entry that stays
      ensures r.Some? ==> clock == old(clock) + 1 && r.value.used == clock && forall e :: e in old(issued) && e != r.value ==> e.used == old(e.used)
      ensures forall e :: e in old(lru) && e !in lru && e.path != path ==>
                e.refs == 0 && forall d :: d in lru && d.refs == 0 ==> d.used > e.used
      ensures |lru| >= Min(|old(lru)|, max) - 1 && (r.Some? ==> |lru| >= Min(|old(lru)|, max))
    {
      hide Bijection, ByRecency;
      if path in byPath {
        FoundInList(lru, byPath, path);
        var entry := byPath[path];
        var k := IndexOf(entry);
        if !write || entry.writable {
          Hold(k);
          return Some(entry);
        }
        StillThere(lru, k);
        Evict(k);
      }
      if !canOpen {
        return None;
      }
      var entry := OpenFile(path, write);
      r := Some(entry);
    }

    /** A hit: one hold more, and to the front of the list. */
    method Hold(k: nat)
      requires Valid() && k < |lru|
      modifies this`lru, this`clock, lru[k]
      ensures Valid() && lru == [old(lru)[k]] + old(lru)[..k] + old(lru)[k + 1..]
      ensures clock == old(clock) + 1 && lru[0].used == clock && lru[0].refs == old(lru[k].refs) + 1 && lru[0].closes == old(lru[k].closes)
    {
      hide Bijection, ByRecency;
      var entry := lru[k];
      MovedToFront(lru, k, byPath);
      RestByRecency(lru, k, clock);
      NotInRest(lru, k, byPath);
      ghost var rest := lru[..k] + lru[k + 1..];
      lru := [lru[k]] + lru[..k] + lru[k + 1..];
      entry.refs := entry.refs + 1;
      entry.used := clock + 1;
      FrontByRecency(rest, entry, clock);
      assert [entry] + rest == lru;
      clock := clock + 1;
    }

    /** The rest of acquire on a miss. */
    method OpenFile(path: string, write: bool) returns (entry: Entry)
      requires Valid() && path !in byPath
      modifies this, issued
      ensures Valid() && fresh(entry) && issued == old(issued) + {entry} && Trimmed(lru, max)
      ensures entry.path == path && entry.writable == write && entry.refs == 1 && entry.Open() && entry in lru
      ensures forall e :: e in old(issued) ==> e.refs == old(e.refs) && e.used == old(e.used)
      ensures clock == old(clock) + 1 && entry.used == clock && |lru| >= Min(|old(lru)| + 1, max)
      ensures forall e :: e in old(lru) && e !in lru ==> e.refs == 0 && forall d :: d in lru && d.refs == 0 ==> d.used > e.used
      ensures forall e :: e in lru ==> e == entry || e in old(lru)
    {
      hide Bijection, ByRecency;
      entry := new Entry(path, write);
      PushedFront(lru, byPath, entry);
      entry.used := clock + 1;
      FrontByRecency(lru, entry, clock);
      clock := clock + 1;
      lru, byPath, issued := [entry] + lru, byPath[path := entry], issued + {entry};
      Trim();
    }

    /** release, once for each acquire. */
    method Release(entry: Entry)
      requires Valid() && entry in issued && entry.refs > 0
      modifies entry
      ensures Valid()
      ensures entry.refs == old(entry.refs) - 1 && entry.evicted == old(entry.evicted) && entry.used == old(entry.used)
      ensures entry.closes == if entry.evicted && entry.refs == 0 then 1 else 0
    {
      hide Bijection;
      entry.refs := entry.refs - 1;
      if entry.evicted && entry.refs <= 0 {
        entry.closes := entry.closes + 1;
      }
    }

    method IndexOf(e: Entry) returns (k: nat)
      requires e in lru
      ensures k < |lru| && lru[k] == e
    {
      k := 0;
      while lru[k] != e
        invariant k < |lru| && e in lru[k..]
        decreases |lru| - k
      {
        k := k + 1;
      }
    }

    /** evict: out of the cache now, closed now or at its last release. */
    method Evict(k: nat)
      requires Valid() && k < |lru|
      modifies this`lru, this`byPath, issued
      ensures Valid() && lru == old(lru[..k] + lru[k + 1..]) && byPath == old(byPath) - {old(lru)[k].path}
      ensures forall e :: e in issued ==> e.refs == old(e.refs) && e.used == old(e.used) && (e.evicted <==> old(e.evicted) || e == old(lru)[k])
    {
      hide Bijection, ByRecency;
      var entry := lru[k];
      Removed(lru, k, byPath);
      RestByRecency(lru, k, clock);
      lru := lru[..k] + lru[k + 1..];
      byPath := byPath - {entry.path};
      entry.evicted := true;
      if entry.refs <= 0 {
        entry.closes := entry.closes + 1;
      }
    }

    /** trim: idle handles go, least recently used first, until the cache fits or every handle is held. */
    method Trim()
      requires Valid()
      modifies this`lru, this`byPath, issued
      ensures Valid() && Trimmed(lru, max)
      ensures forall e :: e in issued ==> e.refs == old(e.refs) && e.used == old(e.used)
      ensures forall e :: e in old(lru) && e.refs > 0 ==> e in lru && !e.evicted
      ensures forall e :: e in old(lru) && e !in lru ==> e.refs == 0 && forall d :: d in lru && d.refs == 0 ==> d.used > e.used
      ensures |lru| >= Min(|old(lru)|, max) && forall e :: e in lru ==> e in old(lru)
    {
      hide Bijection, ByRecency;
      while |lru| > max
        invariant Valid() && forall e :: e in issued ==> e.refs == old(e.refs) && e.used == old(e.used)
        invariant forall e :: e in old(lru) && e.refs > 0 ==> e in lru
        invariant forall e :: e in old(lru) && e !in lru ==> e.refs == 0 && forall d :: d in lru && d.refs == 0 ==> d.used > e.used
        invariant |lru| >= Min(|old(lru)|, max) && forall e :: e in lru ==> e in old(lru)
        decreases |lru|
      {
        var k := LastIdle();
        if k < 0 {
          return;
        }
        assert lru[k] in issued;
        StillThere(lru, k);
        IdleIsOlder(lru, k, clock);
        Evict(k);
      }
    }

    /** The scan from the back of the list. */
    method LastIdle() returns (k: int)
      requires Valid()
      ensures -1 <= k < |lru|
      ensures k == -1 ==> forall e :: e in lru ==> e.refs > 0
      ensures k >= 0 ==> lru[k].refs == 0 && forall j :: k < j < |lru| ==> lru[j].refs > 0
    {
      k := |lru| - 1;
      while k >= 0
        invariant -1 <= k < |lru| && forall j :: k < j < |lru| ==> lru[j].refs > 0
      {
        assert lru[k] in issued && lru[k].Sound();
        if lru[k].refs == 0 {
          return;
        }
        k := k - 1;
      }
    }

    /** closeAll: every handle leaves the cache; held ones close at their last release. */
    method CloseAll()
      requires Valid()
      modifies this`lru, this`byPath, issued
      ensures Valid() && lru == [] && byPath == map[]
      ensures forall e :: e in issued ==> e.refs == old(e.refs) && e.evicted && (e.Open() <==> e.refs > 0)
    {
      while |lru| > 0
        invariant Valid() && forall e :: e in issued ==> e.refs == old(e.refs)
        decreases |lru|
      {
        Evict(0);
      }
      NothingLeft(byPath);
    }
  }

  /** The list holds each path once, and the map finds exactly what is in the list. */
  ghost predicate Bijection(lru: seq<Entry>, byPath: map<string, Entry>) {
    && (forall i, j :: 0 <= i < j < |lru| ==> lru[i] != lru[j])
    && (forall e :: e in lru ==> e.path in byPath && byPath[e.path] == e)
    && (forall p :: p in byPath ==> byPath[p] in lru && byPath[p].path == p)
  }

  /** The list is in order of use, the last used first. */
  ghost predicate ByRecency(lru: seq<Entry>, clock: nat)
    reads set e | e in lru
  {
    (forall i, j :: 0 <= i < j < |lru| ==> lru[i].used > lru[j].used) && forall e :: e in lru ==> e.used <= clock
  }

  /** What trim achieves. */
  ghost predicate Trimmed(lru: seq<Entry>, max: int)
    reads set e | e in lru
  {
    |lru| <= max || forall e :: e in lru ==> e.refs > 0
  }

  lemma {:induction false} Removed(lru: seq<Entry>, k: nat, byPath: map<string, Entry>)
    requires Bijection(lru, byPath) && k < |lru|
    ensures Bijection(lru[..k] + lru[k + 1..], byPath - {lru[k].path})
    ensures forall e :: e in lru[..k] + lru[k + 1..] <==> e in lru && e != lru[k]
  {
    var rest := lru[..k] + lru[k + 1..];
    assert lru == lru[..k] + [lru[k]] + lru[k + 1..];
    forall e | e in rest ensures e in lru && e != lru[k] {
      var i :| 0 <= i < |rest| && rest[i] == e;
      assert lru[if i < k then i else i + 1] == e;
    }
  }

  lemma {:induction false} FoundInList(lru: seq<Entry>, byPath: map<string, Entry>, path: string)
    requires Bijection(lru, byPath) && path in byPath
    ensures byPath[path] in lru && byPath[path].path == path && forall e :: e in lru && e.path == path ==> e == byPath[path]
  {
  }

  lemma {:induction false} RestByRecency(lru: seq<Entry>, k: nat, clock: nat)
    requires ByRecency(lru, clock) && k < |lru|
    ensures ByRecency(lru[..k] + lru[k + 1..], clock)
  {
    var rest := lru[..k] + lru[k + 1..];
    assert forall i :: 0 <= i < |rest| ==> rest[i] == lru[if i < k then i else i + 1];
  }

  lemma {:induction false} NotInRest(lru: seq<Entry>, k: nat, byPath: map<string, Entry>)
    requires Bijection(lru, byPath) && k < |lru|
    ensures lru[k] !in lru[..k] + lru[k + 1..]
  {
  }

  lemma {:induction false} FrontByRecency(lru: seq<Entry>, e: Entry, clock: nat)
    requires ByRecency(lru, clock) && e.used == clock + 1
    ensures ByRecency([e] + lru, clock + 1)
  {
  }

  /** Every idle entry but the last one in the list has been used since. */
  lemma {:induction false} IdleIsOlder(lru: seq<Entry>, k: nat, clock: nat)
    requires ByRecency(lru, clock) && k < |lru| && forall j :: k < j < |lru| ==> lru[j].refs > 0
    ensures forall d :: d in lru && d != lru[k] && d.refs == 0 ==> d.used > lru[k].used
  {
    forall d | d in lru && d != lru[k] && d.refs == 0 ensures d.used > lru[k].used {
      var j :| 0 <= j < |lru| && lru[j] == d;
      assert j < k;
    }
  }

  lemma {:induction false} StillThere(lru: seq<Entry>, k: nat)
    requires k < |lru|
    ensures forall e :: e in lru && e != lru[k] ==> e in lru[..k] + lru[k + 1..]
  {
    assert lru == lru[..k] + [lru[k]] + lru[k + 1..];
  }

  lemma {:induction false} MovedToFront(lru: seq<Entry>, k: nat, byPath: map<string, Entry>)
    requires Bijection(lru, byPath) && k < |lru|
    ensures Bijection([lru[k]] + lru[..k] + lru[k + 1..], byPath)
    ensures forall e :: e in [lru[k]] + lru[..k] + lru[k + 1..] <==> e in lru
  {
    assert lru == lru[..k] + [lru[k]] + lru[k + 1..];
  }

  lemma {:induction false} PushedFront(lru: seq<Entry>, byPath: map<string, Entry>, e: Entry)
    requires Bijection(lru, byPath) && e.path !in byPath
    ensures Bijection([e] + lru, byPath[e.path := e])
  {
  }

  lemma {:induction false} NothingLeft(byPath: map<string, Entry>)
    requires Bijection([], byPath)
    ensures byPath == map[]
  {
    if byPath.Keys != {} {
      var p := SomeMember(byPath.Keys);
    }
  }
}
