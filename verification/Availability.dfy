/** How many connected peers hold each piece: internal/picker/availability.go. */
module AvailabilityIndex {
  /** How many of the peers hold piece i. */
  function Holders(views: seq<set<int>>, i: int): (n: nat)
  {
    if views == [] then 0 else (if i in views[0] then 1 else 0) + Holders(views[1..], i)
  }

  function CountsOf(views: seq<set<int>>, n: nat): (counts: seq<nat>) {
    seq(n, i => Holders(views, i))
  }

  lemma {:induction false} HoldersAppend(views: seq<set<int>>, ws: seq<set<int>>, i: int)
    ensures Holders(views + ws, i) == Holders(views, i) + Holders(ws, i)
    decreases |views|
  {
    if views == [] {
      assert views + ws == ws;
    } else {
      assert (views + ws)[1..] == views[1..] + ws;
      HoldersAppend(views[1..], ws, i);
    }
  }

  lemma {:induction false} HoldersSplit(views: seq<set<int>>, k: nat, i: int)
    requires k < |views|
    ensures Holders(views, i) == Holders(views[..k], i) + (if i in views[k] then 1 else 0) + Holders(views[k + 1..], i)
  {
    assert views == views[..k] + ([views[k]] + views[k + 1..]);
    HoldersAppend(views[..k], [views[k]] + views[k + 1..], i);
    assert ([views[k]] + views[k + 1..])[1..] == views[k + 1..];
  }

  /** The three ways an event changes the counts. */
  function Added(counts: seq<nat>, have: set<int>): (c: seq<nat>)
    ensures |c| == |counts|
  {
    seq(|counts|, i requires 0 <= i < |counts| => counts[i] + if i in have then 1 else 0)
  }

  function Removed(counts: seq<nat>, have: set<int>): (c: seq<nat>)
    ensures |c| == |counts|
  {
    seq(|counts|, i requires 0 <= i < |counts| => if i in have && counts[i] > 0 then counts[i] - 1 else counts[i])
  }

  class Availability {
    var counts: seq<nat>

    constructor (n: nat)
      ensures counts == CountsOf([], n)
    {
      counts := seq(n, i => 0);
    }

    /** A peer connects: its pieces are counted once more. */
    method AddPeer(have: set<int>, ghost views: seq<set<int>>)
      modifies this
      ensures counts == Added(old(counts), have)
      ensures old(counts) == CountsOf(views, |old(counts)|) ==> counts == CountsOf(views + [have], |counts|)
    {
      ghost var before := counts;
      for i := 0 to |counts|
        invariant |counts| == |before|
        invariant forall k :: 0 <= k < i ==> counts[k] == before[k] + if k in have then 1 else 0
        invariant forall k :: i <= k < |counts| ==> counts[k] == before[k]
      {
        if i in have {
          counts := counts[i := counts[i] + 1];
        }
      }
      forall i | 0 <= i < |counts| ensures Holders(views + [have], i) == Holders(views, i) + if i in have then 1 else 0 {
        HoldersAppend(views, [have], i);
        assert [have][1..] == [];
      }
    }

    /** The k-th connected peer leaves; a count already at zero stays there. */
    method RemovePeer(have: set<int>, ghost views: seq<set<int>>, ghost k: nat)
      modifies this
      ensures counts == Removed(old(counts), have)
      ensures k < |views| && views[k] == have && old(counts) == CountsOf(views, |old(counts)|) ==>
                counts == CountsOf(views[..k] + views[k + 1..], |counts|)
    {
      ghost var before := counts;
      for i := 0 to |counts|
        invariant |counts| == |before|
        invariant forall j :: 0 <= j < i ==> counts[j] == if j in have && before[j] > 0 then before[j] - 1 else before[j]
        invariant forall j :: i <= j < |counts| ==> counts[j] == before[j]
      {
        if i in have && counts[i] > 0 {
          counts := counts[i := counts[i] - 1];
        }
      }
      if k < |views| && views[k] == have && before == CountsOf(views, |before|) {
        forall i | 0 <= i < |counts| ensures counts[i] == Holders(views[..k] + views[k + 1..], i) {
          HoldersSplit(views, k, i);
          HoldersAppend(views[..k], views[k + 1..], i);
        }
      }
    }

    /** The k-th connected peer announces a piece. */
    method Add(index: int, ghost views: seq<set<int>>, ghost k: nat)
      modifies this
      ensures counts == Added(old(counts), {index})
      ensures k < |views| && index !in views[k] && old(counts) == CountsOf(views, |old(counts)|) ==>
                counts == CountsOf(views[k := views[k] + {index}], |counts|)
    {
      ghost var before := counts;
      if 0 <= index < |counts| {
        counts := counts[index := counts[index] + 1];
      }
      if k < |views| && index !in views[k] && before == CountsOf(views, |before|) {
        var views' := views[k := views[k] + {index}];
        forall i | 0 <= i < |counts| ensures counts[i] == Holders(views', i) {
          HoldersSplit(views, k, i);
          HoldersSplit(views', k, i);
          assert views'[..k] == views[..k] && views'[k + 1..] == views[k + 1..];
        }
      }
    }

    /** Every peer left at once. */
    method Reset()
      modifies this
      ensures counts == CountsOf([], |old(counts)|)
    {
      counts := seq(|counts|, i => 0);
    }

    function Count(index: int): (n: nat)
      reads this
    {
      if index < 0 || index >= |counts| then 0 else counts[index]
    }

    /** The fewest copies of any piece that someone holds; zero when nobody holds anything. */
    method MinCount() returns (m: nat)
      ensures m == 0 <==> forall i :: 0 <= i < |counts| ==> counts[i] == 0
      ensures m > 0 ==> m in counts && forall i :: 0 <= i < |counts| && counts[i] > 0 ==> m <= counts[i]
    {
      var min: int := -1;
      for i := 0 to |counts|
        invariant min == -1 || (min > 0 && min in counts)
        invariant min == -1 <==> forall k :: 0 <= k < i ==> counts[k] == 0
        invariant min != -1 ==> forall k :: 0 <= k < i && counts[k] > 0 ==> min <= counts[k]
      {
        if counts[i] == 0 {
          continue;
        }
        if min < 0 || counts[i] < min {
          min := counts[i];
        }
      }
      m := if min < 0 then 0 else min;
    }

    /** The first among the rarest pieces that are wanted and held by someone. */
    method Rarest(want: set<int>) returns (best: int)
      ensures best == -1 <==> forall i :: 0 <= i < |counts| && i in want ==> counts[i] == 0
      ensures best != -1 ==> 0 <= best < |counts| && best in want && counts[best] > 0
      ensures best != -1 ==> forall i :: 0 <= i < |counts| && i in want && counts[i] > 0 ==>
                counts[best] <= counts[i] && (i < best ==> counts[best] < counts[i])
    {
      best := -1;
      for i := 0 to |counts|
        invariant -1 <= best < i
        invariant best == -1 <==> forall k :: 0 <= k < i && k in want ==> counts[k] == 0
        invariant best != -1 ==> best in want && counts[best] > 0
        invariant best != -1 ==> forall k :: 0 <= k < i && k in want && counts[k] > 0 ==>
                    counts[best] <= counts[k] && (k < best ==> counts[best] < counts[k])
      {
        if counts[i] == 0 || i !in want {
          continue;
        }
        if best < 0 || counts[i] < counts[best] {
          best := i;
        }
      }
    }
  }
}
