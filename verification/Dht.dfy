/** The Kademlia routing table and the iterative lookup: internal/dht/table.go and lookup.go. */
module Dht {
  import opened Bytes
  import opened DhtId

  const BUCKET_SIZE := 8
  const NUM_BUCKETS := 160
  const BAD_AFTER_FAILURES := 3
  const LOOKUP_ALPHA := 3
  const LOOKUP_K := 8
  const MAX_LOOKUP_ROUNDS := 20

  datatype Contact = Contact(id: NodeId, addr: int, lastSeen: int, failedQueries: nat)

  datatype NodeAddr = NodeAddr(id: NodeId, addr: int)

  // ---------- nearest first ----------

  /** Ascending distance from the target, which also makes the ids distinct. */
  ghost predicate NearestFirst(target: NodeId, ids: seq<NodeId>) {
    forall i, j :: 0 <= i < j < |ids| ==> Nearer(target, ids[i], ids[j])
  }

  /** The k ids of `all` nearest to the target, in order. */
  ghost predicate IsClosest(target: NodeId, all: set<NodeId>, k: nat, ids: seq<NodeId>) {
    && NearestFirst(target, ids)
    && (forall id :: id in ids ==> id in all)
    && |ids| == Min(k, |all|)
    && (forall id :: id in all && id !in ids ==> forall i :: 0 <= i < |ids| ==> Nearer(target, ids[i], id))
  }

  /** One id put in its place; the sort is insertion, one id after another. */
  method InsertByDistance(target: NodeId, ids: seq<NodeId>, id: NodeId) returns (out: seq<NodeId>)
    requires IsId(target) && IsId(id) && (forall x :: x in ids ==> IsId(x)) && NearestFirst(target, ids) && id !in ids
    ensures NearestFirst(target, out) && |out| == |ids| + 1
    ensures forall x :: x in out <==> x in ids || x == id
  {
    var k := 0;
    while k < |ids| && Nearer(target, ids[k], id)
      invariant 0 <= k <= |ids| && forall i :: 0 <= i < k ==> Nearer(target, ids[i], id)
    {
      k := k + 1;
    }
    out := ids[..k] + [id] + ids[k..];
    PlacedInOrder(target, ids, k, id);
  }

  lemma {:induction false} PlacedInOrder(target: NodeId, ids: seq<NodeId>, k: nat, id: NodeId)
    requires IsId(target) && IsId(id) && (forall x :: x in ids ==> IsId(x)) && NearestFirst(target, ids) && id !in ids
    requires k <= |ids| && (forall i :: 0 <= i < k ==> Nearer(target, ids[i], id)) && (k < |ids| ==> !Nearer(target, ids[k], id))
    ensures NearestFirst(target, ids[..k] + [id] + ids[k..])
    ensures forall x :: x in ids[..k] + [id] + ids[k..] <==> x in ids || x == id
  {
    hide Nearer;
    var out := ids[..k] + [id] + ids[k..];
    forall i | k <= i < |ids| ensures Nearer(target, id, ids[i]) {
      assert ids[k] in ids && ids[i] in ids;
      NearerIsTotal(target, ids[k], id);
      if i > k {
        NearerIsTransitive(target, id, ids[k], ids[i]);
      }
    }
    forall i, j | 0 <= i < j < |out| ensures Nearer(target, out[i], out[j]) {
      assert out[i] == if i < k then ids[i] else if i == k then id else ids[i - 1];
      assert out[j] == if j < k then ids[j] else if j == k then id else ids[j - 1];
    }
    assert ids == ids[..k] + ids[k..];
  }

  /** Sort by distance and keep the first k. */
  method Closest(target: NodeId, all: set<NodeId>, k: nat) returns (ids: seq<NodeId>)
    requires IsId(target) && forall x :: x in all ==> IsId(x)
    ensures IsClosest(target, all, k, ids)
  {
    var rest := all;
    ids := [];
    while rest != {}
      invariant rest <= all && NearestFirst(target, ids) && |ids| + |rest| == |all|
      invariant forall x :: x in ids <==> x in all && x !in rest
      decreases |rest|
    {
      ghost var w := SomeMember(rest);
      var id :| id in rest;
      ids := InsertByDistance(target, ids, id);
      rest := rest - {id};
    }
    FirstK(target, all, k, ids);
    if |ids| > k {
      ids := ids[..k];
    }
  }

  lemma {:induction false} FirstK(target: NodeId, all: set<NodeId>, k: nat, ids: seq<NodeId>)
    requires NearestFirst(target, ids) && |ids| == |all| && forall x :: x in ids <==> x in all
    ensures IsClosest(target, all, k, if |ids| > k then ids[..k] else ids)
  {
    if |ids| > k {
      var first := ids[..k];
      forall id, i | id in all && id !in first && 0 <= i < k ensures Nearer(target, first[i], id) {
        var j :| 0 <= j < |ids| && ids[j] == id;
        assert forall l :: 0 <= l < k ==> first[l] == ids[l] && first[l] in first;
      }
    }
  }

  /** The answer is determined by the set. */
  lemma {:induction false} ClosestIsUnique(target: NodeId, all: set<NodeId>, k: nat, a: seq<NodeId>, b: seq<NodeId>, i: nat)
    requires IsId(target) && IsClosest(target, all, k, a) && IsClosest(target, all, k, b) && i <= |a|
    ensures |a| == |b| && a[..i] == b[..i]
  {
    if i > 0 {
      ClosestIsUnique(target, all, k, a, b, i - 1);
      var x, y := a[i - 1], b[i - 1];
      if x != y {
        FirstAmongTheRest(target, all, k, a, b, i - 1);
        FirstAmongTheRest(target, all, k, b, a, i - 1);
        NearerIsTotal(target, x, y);
      }
      assert a[..i] == a[..i - 1] + [x] && b[..i] == b[..i - 1] + [y];
    }
  }

  lemma {:induction false} FirstAmongTheRest(target: NodeId, all: set<NodeId>, k: nat, a: seq<NodeId>, b: seq<NodeId>, i: nat)
    requires IsClosest(target, all, k, a) && IsClosest(target, all, k, b) && i < |a| == |b| && a[..i] == b[..i] && a[i] != b[i]
    ensures Nearer(target, a[i], b[i])
  {
    var y := b[i];
    assert y in b;
    if y in a {
      var j :| 0 <= j < |a| && a[j] == y;
      if j < i {
        assert a[..i][j] == b[..i][j] == b[j];
        assert Nearer(target, b[j], b[i]);
        NearerIsTotal(target, y, y);
      }
    }
  }

  // ---------- buckets ----------

  predicate Bad(c: Contact) {
    c.failedQueries >= BAD_AFTER_FAILURES
  }

  ghost predicate IdsDistinct(cs: seq<Contact>) {
    forall i, j :: 0 <= i < j < |cs| ==> cs[i].id != cs[j].id
  }

  /** The first contact that satisfies a test, or the length. */
  function FindId(cs: seq<Contact>, id: NodeId): (i: nat)
    ensures i <= |cs| && (i < |cs| ==> cs[i].id == id) && forall j :: 0 <= j < i ==> cs[j].id != id
  {
    if cs == [] then 0 else if cs[0].id == id then 0 else
      assert forall j :: 0 < j < |cs| ==> cs[j] == cs[1..][j - 1];
      1 + FindId(cs[1..], id)
  }

  /** What inserting c does to a bucket. */
  ghost predicate Inserted(cs: seq<Contact>, c: Contact, out: seq<Contact>) {
    var k, bad := FindId(cs, c.id), FirstBad(cs);
    if k < |cs| then out == cs[..k] + cs[k + 1..] + [c]
    else if |cs| < BUCKET_SIZE then out == cs + [c]
    else if bad < |cs| then out == cs[bad := c]
    else out == cs
  }

  function FirstBad(cs: seq<Contact>): (i: nat)
    ensures i <= |cs| && (i < |cs| ==> Bad(cs[i])) && forall j :: 0 <= j < i ==> !Bad(cs[j])
  {
    if cs == [] then 0 else if Bad(cs[0]) then 0 else
      assert forall j :: 0 < j < |cs| ==> cs[j] == cs[1..][j - 1];
      1 + FirstBad(cs[1..])
  }

  /** Nobody who answers is displaced, and the new contact is left out only of a bucket full of contacts that are not bad. */
  lemma {:induction false} InsertedKeeps(cs: seq<Contact>, c: Contact, out: seq<Contact>)
    requires Inserted(cs, c, out)
    ensures forall x :: x in cs && x.failedQueries < 3 && x.id != c.id ==> x in out
    ensures c in out || (out == cs && |cs| >= 8 && forall i :: 0 <= i < |cs| ==> cs[i].failedQueries < 3)
  {
    var k, bad := FindId(cs, c.id), FirstBad(cs);
    if k < |cs| {
      assert cs == cs[..k] + [cs[k]] + cs[k + 1..];
      assert out[|out| - 1] == c;
    } else if |cs| < BUCKET_SIZE {
      assert out[|cs|] == c;
    } else if bad < |cs| {
      assert out[bad] == c;
      forall x | x in cs && !Bad(x) ensures x in out {
        var i :| 0 <= i < |cs| && cs[i] == x;
        assert out[i] == x;
      }
    }
  }

  /** bucket.insert: refreshed and moved to the tail, appended, put in place of the first bad contact, or dropped. */
  method InsertInBucket(cs: seq<Contact>, id: NodeId, addr: int, now: int) returns (out: seq<Contact>)
    requires IdsDistinct(cs) && |cs| <= BUCKET_SIZE
    ensures IdsDistinct(out) && |out| <= BUCKET_SIZE && |out| >= |cs|
    ensures Inserted(cs, Contact(id, addr, now, 0), out)
    ensures forall x :: x in out ==> x in cs || x == Contact(id, addr, now, 0)
  {
    var c := Contact(id, addr, now, 0);
    var k := FindId(cs, id);
    if k < |cs| {
      var rest := cs[..k] + cs[k + 1..];
      forall j | 0 <= j < |rest| ensures rest[j] == cs[if j < k then j else j + 1] {
      }
      return rest + [c];
    }
    if |cs| < BUCKET_SIZE {
      return cs + [c];
    }
    for i := 0 to |cs|
      invariant forall j :: 0 <= j < i ==> !Bad(cs[j])
    {
      if Bad(cs[i]) {
        return cs[i := c];
      }
    }
    out := cs;
  }

  // ---------- the table ----------

  function BucketIndex(self: NodeId, id: NodeId): (i: nat)
    requires IsId(self) && IsId(id)
    ensures i < NUM_BUCKETS
  {
    var n := PrefixLen(self, id);
    if n >= NUM_BUCKETS then NUM_BUCKETS - 1 else n
  }

  /** A bucket's contacts belong in it, each once, at most eight, and the table's owner is not among them. */
  ghost predicate BucketOk(self: NodeId, cs: seq<Contact>, b: nat)
    requires IsId(self)
  {
    |cs| <= BUCKET_SIZE && IdsDistinct(cs) && forall i :: 0 <= i < |cs| ==> IsId(cs[i].id) && cs[i].id != self && BucketIndex(self, cs[i].id) == b
  }

  /** A contact in bucket b shares exactly b leading bits with the table's owner, or at least 159 in the last one. */
  lemma {:induction false} BucketSharesPrefix(self: NodeId, cs: seq<Contact>, b: nat, i: nat)
    requires IsId(self) && BucketOk(self, cs, b) && i < |cs|
    ensures IsId(cs[i].id) && (if b < 159 then PrefixLen(self, cs[i].id) == b else b == 159 && PrefixLen(self, cs[i].id) >= 159)
  {
  }

  class Table {
    const self: NodeId
    var buckets: seq<seq<Contact>>

    ghost predicate Valid()
      reads this
    {
      IsId(self) && |buckets| == NUM_BUCKETS && forall b :: 0 <= b < NUM_BUCKETS ==> BucketOk(self, buckets[b], b)
    }

    constructor (self: NodeId)
      requires IsId(self)
      ensures Valid() && this.self == self && Ids(buckets) == {}
    {
      this.self := self;
      buckets := seq(NUM_BUCKETS, i => []);
    }

    /** Insert; only the contact's own bucket is touched, and only a bad contact is ever displaced. */
    method Insert(id: NodeId, addr: int, now: int)
      requires Valid() && IsId(id)
      modifies this
      ensures Valid()
      ensures id == self ==> buckets == old(buckets)
      ensures forall b :: 0 <= b < NUM_BUCKETS && b != BucketIndex(self, id) ==> buckets[b] == old(buckets)[b]
      ensures id != self ==> Inserted(old(buckets)[BucketIndex(self, id)], Contact(id, addr, now, 0), buckets[BucketIndex(self, id)])
    {
      if id == self {
        return;
      }
      var b := BucketIndex(self, id);
      var cs := buckets[b];
      assert BucketOk(self, cs, b);
      var out := InsertInBucket(cs, id, addr, now);
      StaysInBucket(self, cs, out, b, id, addr, now);
      buckets := buckets[b := out];
    }

    /** MarkFailed: one failure more for the contact of that id, if there is one, and nothing else changes. */
    method MarkFailed(id: NodeId)
      requires Valid() && IsId(id)
      modifies this
      ensures Valid() && buckets == Noted(old(buckets), id) && Ids(buckets) == Ids(old(buckets))
    {
      OnlyInOwnBucket(self, buckets, id);
      if id == self {
        return;
      }
      var b := BucketIndex(self, id);
      var k := FindId(buckets[b], id);
      if k < |buckets[b]| {
        assert BucketOk(self, buckets[b], b);
        var c := buckets[b][k];
        var cs := buckets[b][k := c.(failedQueries := c.failedQueries + 1)];
        assert BucketOk(self, cs, b);
        SameIds(buckets, b, cs);
        NotedInPlace(buckets, b, k, id);
        buckets := buckets[b := cs];
      }
    }

    /** Where to reach a contact. */
    function AddressOf(id: NodeId): (addr: int)
      requires Valid() && IsId(id)
      reads this
    {
      var cs := buckets[BucketIndex(self, id)];
      var k := FindId(cs, id);
      if k < |cs| then cs[k].addr else 0
    }

    /** FindClosest: the true nearest, by the XOR metric, of all the table holds. */
    method FindClosest(target: NodeId, k: nat) returns (ids: seq<NodeId>)
      requires Valid() && IsId(target)
      ensures IsClosest(target, Ids(buckets), k, ids)
      ensures forall id :: id in ids ==> IsId(id)
    {
      var all: set<NodeId> := {};
      for b := 0 to NUM_BUCKETS
        invariant all == Ids(buckets[..b])
      {
        IdsAppend(buckets[..b], buckets[b]);
        assert buckets[..b + 1] == buckets[..b] + [buckets[b]];
        all := all + IdsOf(buckets[b]);
      }
      assert buckets[..NUM_BUCKETS] == buckets;
      forall x | x in all ensures IsId(x) {
        var b, i :| 0 <= b < |buckets| && 0 <= i < |buckets[b]| && buckets[b][i].id == x;
        assert BucketOk(self, buckets[b], b);
      }
      ids := Closest(target, all, k);
    }
  }

  /** A failure noted: one more for whoever has the id. */
  function NotedIn(cs: seq<Contact>, id: NodeId): (cs': seq<Contact>)
    ensures |cs'| == |cs|
  {
    seq(|cs|, i requires 0 <= i < |cs| => if cs[i].id == id then cs[i].(failedQueries := cs[i].failedQueries + 1) else cs[i])
  }

  function Noted(buckets: seq<seq<Contact>>, id: NodeId): (buckets': seq<seq<Contact>>)
    ensures |buckets'| == |buckets|
  {
    seq(|buckets|, b requires 0 <= b < |buckets| => NotedIn(buckets[b], id))
  }

  /** An id has no place outside its own bucket, and the owner's has none at all. */
  lemma {:induction false} OnlyInOwnBucket(self: NodeId, buckets: seq<seq<Contact>>, id: NodeId)
    requires IsId(self) && IsId(id) && |buckets| == NUM_BUCKETS && forall b :: 0 <= b < NUM_BUCKETS ==> BucketOk(self, buckets[b], b)
    ensures forall b, i :: 0 <= b < NUM_BUCKETS && 0 <= i < |buckets[b]| && buckets[b][i].id == id ==> id != self && b == BucketIndex(self, id)
    ensures (forall b, i :: 0 <= b < NUM_BUCKETS && 0 <= i < |buckets[b]| ==> buckets[b][i].id != id) ==> Noted(buckets, id) == buckets
    ensures IdsDistinct(buckets[BucketIndex(self, id)])
  {
    hide BucketIndex;
    assert BucketOk(self, buckets[BucketIndex(self, id)], BucketIndex(self, id));
    if forall b, i :: 0 <= b < NUM_BUCKETS && 0 <= i < |buckets[b]| ==> buckets[b][i].id != id {
      forall b | 0 <= b < |buckets| ensures NotedIn(buckets[b], id) == buckets[b] {
        assert forall i :: 0 <= i < |buckets[b]| ==> NotedIn(buckets[b], id)[i] == buckets[b][i];
      }
    }
  }

  lemma {:induction false} NotedInPlace(buckets: seq<seq<Contact>>, b: nat, k: nat, id: NodeId)
    requires b < |buckets| && k < |buckets[b]| && buckets[b][k].id == id && IdsDistinct(buckets[b])
    requires forall c, i :: 0 <= c < |buckets| && 0 <= i < |buckets[c]| && buckets[c][i].id == id ==> c == b
    ensures Noted(buckets, id) == buckets[b := buckets[b][k := buckets[b][k].(failedQueries := buckets[b][k].failedQueries + 1)]]
  {
    var cs := buckets[b];
    assert NotedIn(cs, id) == cs[k := cs[k].(failedQueries := cs[k].failedQueries + 1)];
    forall c | 0 <= c < |buckets| && c != b ensures NotedIn(buckets[c], id) == buckets[c] {
      assert forall i :: 0 <= i < |buckets[c]| ==> NotedIn(buckets[c], id)[i] == buckets[c][i];
    }
  }

  function IdsOf(cs: seq<Contact>): (ids: set<NodeId>) {
    set i | 0 <= i < |cs| :: cs[i].id
  }

  /** Every id in the table. */
  function Ids(buckets: seq<seq<Contact>>): (ids: set<NodeId>) {
    set b, i | 0 <= b < |buckets| && 0 <= i < |buckets[b]| :: buckets[b][i].id
  }

  lemma {:induction false} IdsAppend(bs: seq<seq<Contact>>, cs: seq<Contact>)
    ensures Ids(bs + [cs]) == Ids(bs) + IdsOf(cs)
  {
    var all := bs + [cs];
    forall x | x in Ids(bs) ensures x in Ids(all) {
      var b, i :| 0 <= b < |bs| && 0 <= i < |bs[b]| && bs[b][i].id == x;
      assert all[b][i].id == x;
    }
    forall x | x in IdsOf(cs) ensures x in Ids(all) {
      var i :| 0 <= i < |cs| && cs[i].id == x;
      assert all[|bs|][i].id == x;
    }
    forall x | x in Ids(all) ensures x in Ids(bs) || x in IdsOf(cs) {
      var b, i :| 0 <= b < |all| && 0 <= i < |all[b]| && all[b][i].id == x;
      assert b < |bs| ==> bs[b][i].id == x;
    }
  }

  lemma {:induction false} SameIds(bs: seq<seq<Contact>>, b: nat, cs: seq<Contact>)
    requires b < |bs| && |cs| == |bs[b]| && forall i :: 0 <= i < |cs| ==> cs[i].id == bs[b][i].id
    ensures Ids(bs[b := cs]) == Ids(bs)
  {
    var bs' := bs[b := cs];
    forall x | x in Ids(bs) ensures x in Ids(bs') {
      var c, i :| 0 <= c < |bs| && 0 <= i < |bs[c]| && bs[c][i].id == x;
      assert bs'[c][i].id == x;
    }
    forall x | x in Ids(bs') ensures x in Ids(bs) {
      var c, i :| 0 <= c < |bs'| && 0 <= i < |bs'[c]| && bs'[c][i].id == x;
      assert bs[c][i].id == x;
    }
  }

  lemma {:induction false} StaysInBucket(self: NodeId, cs: seq<Contact>, out: seq<Contact>, b: nat, id: NodeId, addr: int, now: int)
    requires IsId(self) && IsId(id) && id != self && BucketIndex(self, id) == b && BucketOk(self, cs, b)
    requires IdsDistinct(out) && |out| <= BUCKET_SIZE
    requires forall x :: x in out ==> x in cs || x == Contact(id, addr, now, 0)
    ensures BucketOk(self, out, b)
  {
    forall i | 0 <= i < |out| ensures IsId(out[i].id) && out[i].id != self && BucketIndex(self, out[i].id) == b {
      assert out[i] in out;
    }
  }

  /** No id is in the table twice, in the same bucket or in two. */
  lemma {:induction false} EachIdOnce(self: NodeId, buckets: seq<seq<Contact>>, b: int, i: int, c: int, j: int)
    requires IsId(self) && |buckets| == NUM_BUCKETS && forall d :: 0 <= d < NUM_BUCKETS ==> BucketOk(self, buckets[d], d)
    requires 0 <= b < NUM_BUCKETS && 0 <= i < |buckets[b]| && 0 <= c < NUM_BUCKETS && 0 <= j < |buckets[c]|
    requires buckets[b][i].id == buckets[c][j].id
    ensures b == c && i == j
  {
    assert BucketOk(self, buckets[b], b) && BucketOk(self, buckets[c], c);
  }

  // ---------- the lookup ----------

  datatype ShortlistEntry = ShortlistEntry(addr: int, queried: bool)

  type Shortlist = map<NodeId, ShortlistEntry>

  ghost predicate AllIds(m: Shortlist) {
    forall id :: id in m ==> IsId(id)
  }

  function Queried(m: Shortlist): (ids: set<NodeId>) {
    set id | id in m && m[id].queried
  }

  /** The picks of one round: the nearest contacts not yet asked, among the eight nearest known. */
  ghost predicate IsRound(target: NodeId, m: Shortlist, picks: seq<NodeId>) {
    && |picks| <= LOOKUP_ALPHA && NearestFirst(target, picks)
    && (forall id :: id in picks ==> id in m && !m[id].queried)
    && exists top :: IsClosest(target, m.Keys, LOOKUP_K, top)
         && (forall id :: id in picks ==> id in top)
         && (forall i, j :: 0 <= i < j < |top| && top[j] in picks && !m[top[i]].queried ==> top[i] in picks)
         && (|picks| < LOOKUP_ALPHA ==> forall id :: id in top && !m[id].queried ==> id in picks)
  }

  /** The whole course of a lookup: the picks of each round, all different, and what was known before each. */
  ghost predicate Rounds(target: NodeId, rounds: seq<seq<NodeId>>, known: seq<Shortlist>, m: Shortlist) {
    && |rounds| == |known| <= MAX_LOOKUP_ROUNDS
    && (forall r :: 0 <= r < |rounds| ==> rounds[r] != [] && IsRound(target, known[r], rounds[r]) && known[r].Keys <= m.Keys)
    && AskedSoFar(rounds, known, m)
    && Accounted(rounds, m)
  }

  /** Whoever was picked, or had been asked before some round, has been asked. */
  ghost predicate AskedSoFar(rounds: seq<seq<NodeId>>, known: seq<Shortlist>, m: Shortlist)
    requires |rounds| == |known|
  {
    && (forall r :: 0 <= r < |rounds| ==> forall id :: id in rounds[r] ==> id in Queried(m))
    && (forall r :: 0 <= r < |rounds| ==> forall id :: id in Queried(known[r]) ==> id in Queried(m))
    && (forall r, q :: 0 <= r < q < |rounds| ==> forall id :: id in rounds[r] ==> id in Queried(known[q]))
  }

  /** Whoever has been asked was picked, and that is at most three a round. */
  ghost predicate Accounted(rounds: seq<seq<NodeId>>, m: Shortlist) {
    && |Queried(m)| <= LOOKUP_ALPHA * |rounds|
    && forall id :: id in Queried(m) ==> exists r :: 0 <= r < |rounds| && id in rounds[r]
  }

  /** Each contact is asked at most once. */
  lemma {:induction false} AskedOnce(target: NodeId, rounds: seq<seq<NodeId>>, known: seq<Shortlist>, m: Shortlist, r: int, i: int, q: int, j: int)
    requires Rounds(target, rounds, known, m)
    requires 0 <= r < |rounds| && 0 <= i < |rounds[r]| && 0 <= q < |rounds| && 0 <= j < |rounds[q]|
    requires rounds[r][i] == rounds[q][j]
    ensures r == q && i == j
  {
    var id := rounds[r][i];
    assert id in rounds[r] && id in rounds[q];
    if r == q {
      PlacesAreUnique(target, rounds[r], i, j);
    }
  }

  lemma {:induction false} PlacesAreUnique(target: NodeId, ids: seq<NodeId>, i: int, j: int)
    requires NearestFirst(target, ids) && 0 <= i < |ids| && 0 <= j < |ids| && ids[i] == ids[j]
    ensures i == j
  {
    if i != j {
      var a, b := if i < j then i else j, if i < j then j else i;
      assert Nearer(target, ids[a], ids[b]);
      NearerIsTotal(target, ids[a], ids[b]);
    }
  }

  /** Of all that was said, in order, this is the first that names its id. */
  ghost predicate FirstNamed(said: seq<NodeAddr>, n: NodeAddr) {
    exists k :: 0 <= k < |said| && said[k] == n && forall j :: 0 <= j < k ==> said[j].id != n.id
  }

  /** Each contact is known under the address with which it was first named. */
  ghost predicate Addressed(m: Shortlist, said: seq<NodeAddr>) {
    && (forall id :: id in m ==> FirstNamed(said, NodeAddr(id, m[id].addr)))
    && (forall n :: n in said ==> n.id in m)
  }

  /** The table holds this contact under this address. */
  ghost predicate InTable(buckets: seq<seq<Contact>>, n: NodeAddr) {
    exists b, i :: 0 <= b < |buckets| && 0 <= i < |buckets[b]| && buckets[b][i].id == n.id && buckets[b][i].addr == n.addr
  }

  lemma {:induction false} SaidMore(said: seq<NodeAddr>, n: NodeAddr, more: NodeAddr)
    requires FirstNamed(said, n)
    ensures FirstNamed(said + [more], n)
  {
    var k :| 0 <= k < |said| && said[k] == n && forall j :: 0 <= j < k ==> said[j].id != n.id;
    assert (said + [more])[k] == n;
  }

  /** One more contact is named: it is learned if it is new, and nothing happens if it is not. */
  lemma {:induction false} AddressedMore(m: Shortlist, said: seq<NodeAddr>, n: NodeAddr)
    requires Addressed(m, said)
    ensures Addressed(if n.id in m then m else m[n.id := ShortlistEntry(n.addr, false)], said + [n])
  {
    hide FirstNamed;
    forall id | id in m ensures FirstNamed(said + [n], NodeAddr(id, m[id].addr)) {
      SaidMore(said, NodeAddr(id, m[id].addr), n);
    }
    if n.id !in m {
      NowNamed(said, n);
    }
  }

  lemma {:induction false} NowNamed(said: seq<NodeAddr>, n: NodeAddr)
    requires forall j :: 0 <= j < |said| ==> said[j].id != n.id
    ensures FirstNamed(said + [n], n)
  {
    assert (said + [n])[|said|] == n;
  }

  lemma {:induction false} SameAddresses(m: Shortlist, m': Shortlist, said: seq<NodeAddr>)
    requires Addressed(m, said) && m'.Keys == m.Keys && forall id :: id in m ==> m'[id].addr == m[id].addr
    ensures Addressed(m', said)
  {
    hide FirstNamed;
  }

  /** closestIDs and the choice of whom to ask, marking them as asked. */
  method PickRound(target: NodeId, m: Shortlist) returns (picks: seq<NodeId>, m': Shortlist)
    requires IsId(target) && AllIds(m)
    ensures IsRound(target, m, picks)
    ensures m'.Keys == m.Keys && Queried(m') == Queried(m) + set id | id in picks
    ensures forall id :: id in m ==> m'[id].addr == m[id].addr
    ensures picks == [] ==> exists top :: IsClosest(target, m.Keys, LOOKUP_K, top) && forall id :: id in top ==> id in Queried(m)
  {
    hide NearestFirst, IsClosest, IsRound, Queried;
    var top := Closest(target, m.Keys, LOOKUP_K);
    TopIsOrdered(target, m, top);
    picks, m' := [], m;
    var i := 0;
    while i < |top| && |picks| < LOOKUP_ALPHA
      invariant 0 <= i <= |top| && |picks| <= LOOKUP_ALPHA
      invariant forall id :: id in picks <==> id in top[..i] && !m[id].queried
      invariant NearestFirst(target, picks)
      invariant Marked(m, picks, m')
    {
      assert top[..i + 1] == top[..i] + [top[i]];
      FreshInOrder(target, top, i);
      assert top[i] in top;
      if !m[top[i]].queried {
        BeforeAll(target, top, i, picks);
        MarkOne(m, picks, m', top[i]);
        m' := m'[top[i] := m[top[i]].(queried := true)];
        picks := picks + [top[i]];
      }
      i := i + 1;
    }
    PickedAsTop(target, m, top, i, picks);
    MarkedAreQueried(m, picks, m');
  }

  lemma {:induction false} TopIsOrdered(target: NodeId, m: Shortlist, top: seq<NodeId>)
    requires IsClosest(target, m.Keys, LOOKUP_K, top)
    ensures NearestFirst(target, top) && NearestFirst(target, []) && Marked(m, [], m) && forall id :: id in top ==> id in m
  {
  }

  /** The picks are marked as asked, and nothing else has changed. */
  ghost predicate Marked(m: Shortlist, picks: seq<NodeId>, m': Shortlist) {
    m'.Keys == m.Keys && (forall id :: id in picks ==> id in m)
    && forall id :: id in m ==> m'[id] == if id in picks then m[id].(queried := true) else m[id]
  }

  lemma {:induction false} MarkOne(m: Shortlist, picks: seq<NodeId>, m': Shortlist, id: NodeId)
    requires Marked(m, picks, m') && id in m
    ensures Marked(m, picks + [id], m'[id := m[id].(queried := true)])
  {
  }

  lemma {:induction false} MarkedAreQueried(m: Shortlist, picks: seq<NodeId>, m': Shortlist)
    requires Marked(m, picks, m')
    ensures m'.Keys == m.Keys && Queried(m') == Queried(m) + set id | id in picks
  {
  }

  lemma {:induction false} FreshInOrder(target: NodeId, ids: seq<NodeId>, i: nat)
    requires NearestFirst(target, ids) && i < |ids|
    ensures ids[i] !in ids[..i]
  {
    if ids[i] in ids[..i] {
      var j :| 0 <= j < i && ids[..i][j] == ids[i];
      PlacesAreUnique(target, ids, j, i);
    }
  }

  lemma {:induction false} BeforeAll(target: NodeId, top: seq<NodeId>, i: nat, picks: seq<NodeId>)
    requires NearestFirst(target, top) && i < |top| && NearestFirst(target, picks) && forall id :: id in picks ==> id in top[..i]
    ensures NearestFirst(target, picks + [top[i]])
  {
    forall k | 0 <= k < |picks| ensures Nearer(target, picks[k], top[i]) {
      assert picks[k] in picks;
      var j :| 0 <= j < i && top[..i][j] == picks[k];
      assert Nearer(target, top[j], top[i]);
    }
  }

  lemma {:induction false} PickedAsTop(target: NodeId, m: Shortlist, top: seq<NodeId>, n: nat, picks: seq<NodeId>)
    requires IsClosest(target, m.Keys, LOOKUP_K, top) && n <= |top| && |picks| <= LOOKUP_ALPHA && (|picks| < LOOKUP_ALPHA ==> n == |top|)
    requires NearestFirst(target, picks) && forall id :: id in picks <==> id in top[..n] && !m[id].queried
    ensures IsRound(target, m, picks)
    ensures picks == [] ==> forall id :: id in top ==> id in Queried(m)
  {
    assert top == top[..n] + top[n..];
    forall i, j | 0 <= i < j < |top| && top[j] in picks && !m[top[i]].queried ensures top[i] in picks {
      var k :| 0 <= k < n && top[..n][k] == top[j];
      PlacesAreUnique(target, top, k, j);
      assert top[..n][i] == top[i];
    }
    if |picks| < LOOKUP_ALPHA {
      assert top[..n] == top;
      assert forall id :: id in top && !m[id].queried ==> id in picks;
    }
  }

  /** The answer of one contact, or a failure: anything at all, as long as it parsed. */
  method Answer() returns (nodes: Option<seq<NodeAddr>>)
    ensures nodes.Some? ==> forall n :: n in nodes.value ==> IsId(n.id)
  {
    nodes := *;
    if nodes.Some? {
      var parsed := true;
      for i := 0 to |nodes.value|
        invariant parsed <==> forall j :: 0 <= j < i ==> IsId(nodes.value[j].id)
      {
        parsed := parsed && IsId(nodes.value[i].id);
      }
      if !parsed {
        nodes := None;
      }
    }
  }

  /** Merging an answer: contacts already known keep their entry. */
  method Merge(m: Shortlist, nodes: seq<NodeAddr>, ghost said: seq<NodeAddr>) returns (m': Shortlist)
    requires Addressed(m, said)
    ensures Addressed(m', said + nodes)
    requires AllIds(m) && forall n :: n in nodes ==> IsId(n.id)
    ensures AllIds(m') && m'.Keys == m.Keys + (set n | n in nodes :: n.id) && Queried(m') == Queried(m)
    ensures forall id :: id in m ==> m'[id] == m[id]
  {
    hide Addressed;
    m' := m;
    assert said + nodes[..0] == said;
    for i := 0 to |nodes|
      invariant Addressed(m', said + nodes[..i])
      invariant m'.Keys == m.Keys + (set j | 0 <= j < i :: nodes[j].id)
      invariant forall id :: id in m' ==> if id in m then m'[id] == m[id] else !m'[id].queried
    {
      AddressedMore(m', said + nodes[..i], nodes[i]);
      assert said + nodes[..i] + [nodes[i]] == said + nodes[..i + 1];
      if nodes[i].id !in m' {
        m' := m'[nodes[i].id := ShortlistEntry(nodes[i].addr, false)];
      }
    }
    assert nodes[..|nodes|] == nodes;
    assert forall n :: n in nodes ==> exists j :: 0 <= j < |nodes| && nodes[j] == n;
  }

  /** Those of a round that failed to answer, and the ids that the others named. */
  function Silent(picks: seq<NodeId>, answers: seq<Option<seq<NodeAddr>>>): (ids: seq<NodeId>)
    requires |answers| <= |picks|
  {
    if answers == [] then []
    else
      var n := |answers| - 1;
      Silent(picks, answers[..n]) + if answers[n].None? then [picks[n]] else []
  }

  function Named(answers: seq<Option<seq<NodeAddr>>>): (ids: set<NodeId>) {
    if answers == [] then {}
    else
      var n := |answers| - 1;
      Named(answers[..n]) + if answers[n].None? then {} else set a | a in answers[n].value :: a.id
  }

  /** What the answers said, one after another. */
  function Spoken(answers: seq<Option<seq<NodeAddr>>>): (said: seq<NodeAddr>) {
    if answers == [] then []
    else
      var n := |answers| - 1;
      Spoken(answers[..n]) + if answers[n].None? then [] else answers[n].value
  }

  function AllNoted(buckets: seq<seq<Contact>>, ids: seq<NodeId>): (buckets': seq<seq<Contact>>) {
    if ids == [] then buckets else Noted(AllNoted(buckets, ids[..|ids| - 1]), ids[|ids| - 1])
  }

  lemma {:induction false} OneMoreAnswer(buckets: seq<seq<Contact>>, picks: seq<NodeId>, answers: seq<Option<seq<NodeAddr>>>, a: Option<seq<NodeAddr>>)
    requires |answers| < |picks|
    ensures Named(answers + [a]) == Named(answers) + if a.None? then {} else set n | n in a.value :: n.id
    ensures Spoken(answers + [a]) == Spoken(answers) + if a.None? then [] else a.value
    ensures Silent(picks, answers + [a]) == Silent(picks, answers) + if a.None? then [picks[|answers|]] else []
    ensures AllNoted(buckets, Silent(picks, answers + [a]))
         == if a.None? then Noted(AllNoted(buckets, Silent(picks, answers)), picks[|answers|]) else AllNoted(buckets, Silent(picks, answers))
  {
    hide Noted;
    assert (answers + [a])[..|answers|] == answers;
    var silent := Silent(picks, answers);
    assert (silent + [picks[|answers|]])[..|silent|] == silent && silent + [] == silent;
  }

  /** One round's queries, their answers taken one after another: each failure is noted in the table, each name learned. */
  method AskRound(table: Table, picks: seq<NodeId>, m: Shortlist, ghost said: seq<NodeAddr>)
    returns (m': Shortlist, ghost answers: seq<Option<seq<NodeAddr>>>)
    requires Addressed(m, said)
    ensures Addressed(m', said + Spoken(answers))
    requires table.Valid() && AllIds(m) && (forall id :: id in picks ==> IsId(id))
    modifies table
    ensures table.Valid() && |answers| == |picks|
    ensures table.buckets == AllNoted(old(table.buckets), Silent(picks, answers)) && Ids(table.buckets) == Ids(old(table.buckets))
    ensures AllIds(m') && m'.Keys == m.Keys + Named(answers) && Queried(m') == Queried(m) && forall id :: id in m ==> m'[id] == m[id]
  {
    hide Noted, Named, Silent, AllNoted, Ids, Spoken, Addressed;
    m', answers := m, [];
    NoAnswers(table.buckets, picks);
    assert said + Spoken([]) == said;
    for i := 0 to |picks|
      invariant Addressed(m', said + Spoken(answers))
      invariant table.Valid() && |answers| == i
      invariant table.buckets == AllNoted(old(table.buckets), Silent(picks, answers)) && Ids(table.buckets) == Ids(old(table.buckets))
      invariant AllIds(m') && m'.Keys == m.Keys + Named(answers) && Queried(m') == Queried(m)
      invariant forall id :: id in m ==> m'[id] == m[id]
    {
      assert picks[i] in picks;
      var nodes := Answer();
      OneMoreAnswer(old(table.buckets), picks, answers, nodes);
      if nodes.None? {
        table.MarkFailed(picks[i]);
        assert Spoken(answers) + [] == Spoken(answers);
      } else {
        m' := Merge(m', nodes.value, said + Spoken(answers));
        assert said + Spoken(answers) + nodes.value == said + (Spoken(answers) + nodes.value);
      }
      answers := answers + [nodes];
    }
  }

  lemma {:induction false} NoAnswers(buckets: seq<seq<Contact>>, picks: seq<NodeId>)
    ensures Named([]) == {} && Spoken([]) == [] && Silent(picks, []) == [] && AllNoted(buckets, Silent(picks, [])) == buckets
  {
  }

  lemma {:induction false} OneMoreRound(target: NodeId, rounds: seq<seq<NodeId>>, known: seq<Shortlist>, m: Shortlist, picks: seq<NodeId>, m': Shortlist)
    requires Rounds(target, rounds, known, m) && |rounds| < MAX_LOOKUP_ROUNDS && picks != [] && IsRound(target, m, picks)
    requires m.Keys <= m'.Keys && Queried(m') == Queried(m) + set id | id in picks
    ensures Rounds(target, rounds + [picks], known + [m], m')
  {
    hide IsRound, Queried, AskedSoFar, Accounted;
    RoundIsShort(target, m, picks);
    OneMoreAsked(rounds, known, m, picks, m');
    OneMoreAccounted(rounds, m, picks, m');
  }

  lemma {:induction false} OneMoreAsked(rounds: seq<seq<NodeId>>, known: seq<Shortlist>, m: Shortlist, picks: seq<NodeId>, m': Shortlist)
    requires |rounds| == |known| && AskedSoFar(rounds, known, m)
    requires Queried(m') == Queried(m) + set id | id in picks
    ensures AskedSoFar(rounds + [picks], known + [m], m')
  {
    hide Queried;
  }

  lemma {:induction false} OneMoreAccounted(rounds: seq<seq<NodeId>>, m: Shortlist, picks: seq<NodeId>, m': Shortlist)
    requires Accounted(rounds, m) && |picks| <= LOOKUP_ALPHA
    requires Queried(m') == Queried(m) + set id | id in picks
    ensures Accounted(rounds + [picks], m')
  {
    hide Queried;
    var rs := rounds + [picks];
    SetOfSeq(picks);
    UnionSize(Queried(m), set id | id in picks);
    forall id | id in Queried(m') ensures exists r :: 0 <= r < |rs| && id in rs[r] {
      if id in picks {
        assert id in rs[|rounds|];
      } else {
        var r :| 0 <= r < |rounds| && id in rounds[r];
        assert id in rs[r];
      }
    }
  }

  lemma {:induction false} RoundIsShort(target: NodeId, m: Shortlist, picks: seq<NodeId>)
    requires IsRound(target, m, picks)
    ensures |picks| <= LOOKUP_ALPHA
  {
  }

  lemma {:induction false} SetOfSeq(ids: seq<NodeId>)
    ensures |set id | id in ids| <= |ids|
    decreases |ids|
  {
    if ids == [] {
      assert (set id | id in ids) == {};
    } else {
      SetOfSeq(ids[1..]);
      UnionSize({ids[0]}, set id | id in ids[1..]);
      assert ids == [ids[0]] + ids[1..];
      assert (set id | id in ids) == {ids[0]} + set id | id in ids[1..];
    }
  }

  lemma {:induction false} UnionSize(a: set<NodeId>, b: set<NodeId>)
    ensures |a + b| <= |a| + |b|
  {
    assert a + b == a + (b - a);
    assert b == (b - a) + (b * a);
  }

  /** The shortlist a lookup starts from. */
  method Seeds(table: Table, first: seq<NodeId>) returns (m: Shortlist, ghost said: seq<NodeAddr>)
    requires table.Valid() && forall id :: id in first ==> IsId(id) && id in Ids(table.buckets)
    requires forall i, j :: 0 <= i < j < |first| ==> first[i] != first[j]
    ensures Addressed(m, said) && forall n :: n in said ==> InTable(table.buckets, n)
    ensures AllIds(m) && m.Keys == (set id | id in first) && forall id :: id in m ==> !m[id].queried
  {
    hide Addressed, InTable;
    m, said := map[], [];
    NothingSaid();
    for i := 0 to |first|
      invariant Addressed(m, said) && forall n :: n in said ==> InTable(table.buckets, n)
      invariant m.Keys == (set id | id in first[..i]) && forall id :: id in m ==> !m[id].queried
    {
      assert first[..i + 1] == first[..i] + [first[i]];
      var addr := table.AddressOf(first[i]);
      ghost var n := NodeAddr(first[i], addr);
      assert first[i] in first;
      AddressIsInTable(table, first[i]);
      AddressedMore(m, said, n);
      assert first[i] !in first[..i];
      m := m[first[i] := ShortlistEntry(addr, false)];
      said := said + [n];
    }
    assert first[..|first|] == first;
  }

  lemma {:induction false} NothingSaid()
    ensures Addressed(map[], [])
  {
  }

  lemma {:induction false} AddressIsInTable(table: Table, id: NodeId)
    requires table.Valid() && IsId(id) && id in Ids(table.buckets)
    ensures InTable(table.buckets, NodeAddr(id, table.AddressOf(id)))
  {
    var b, i :| 0 <= b < |table.buckets| && 0 <= i < |table.buckets[b]| && table.buckets[b][i].id == id;
    assert BucketOk(table.self, table.buckets[b], b);
  }

  /**
   * iterativeLookup, for arbitrary answers: at most 20 rounds of at most three contacts, nobody asked
   * twice, each round asking the nearest not yet asked; the result is the eight nearest ids ever
   * heard of, and unless the rounds ran out or the caller gave up all of them have been asked.
   */
  method IterativeLookup(table: Table, target: NodeId)
    returns (out: seq<NodeAddr>, cancelled: bool, ghost m: Shortlist, ghost rounds: seq<seq<NodeId>>, ghost known: seq<Shortlist>, ghost heard: set<NodeId>,
             ghost held: seq<NodeAddr>, ghost answered: seq<NodeAddr>)
    requires table.Valid() && IsId(target)
    modifies table
    ensures table.Valid() && Ids(table.buckets) == Ids(old(table.buckets))
    ensures Rounds(target, rounds, known, m) && |Queried(m)| <= 60
    ensures m.Keys == heard && forall id :: id in Ids(old(table.buckets)) && id !in heard ==> |heard| >= LOOKUP_K
    ensures IsClosest(target, heard, LOOKUP_K, IdsIn(out))
    ensures !cancelled && |rounds| < MAX_LOOKUP_ROUNDS ==> forall n :: n in out ==> n.id in Queried(m)
    // under the address the table holds, or else the first answer gave
    ensures forall n :: n in held ==> InTable(old(table.buckets), n)
    ensures heard == (set n | n in held + answered :: n.id) && forall n :: n in out ==> FirstNamed(held + answered, n)
  {
    hide IsRound, NearestFirst, Rounds, Queried, IsClosest, Ids, AllAsked, BucketOk, Addressed, InTable, FirstNamed, Course;
    ghost var seeds := Ids(table.buckets);
    var shortlist;
    shortlist, held := Start(table, target);
    rounds, known, answered := [], [], [];
    cancelled := false;
    assert held + answered == held;
    var round := 0;
    var settled := false;
    while round < MAX_LOOKUP_ROUNDS && !cancelled && !settled
      invariant table.Valid() && Ids(table.buckets) == seeds && Course(target, seeds, rounds, known, shortlist, held + answered)
      invariant |rounds| <= round <= MAX_LOOKUP_ROUNDS && (!settled ==> |rounds| == round)
      invariant settled ==> AllAsked(target, shortlist)
      decreases MAX_LOOKUP_ROUNDS - round, !settled
    {
      CourseMeans(target, seeds, rounds, known, shortlist, held + answered);
      var picks, marked := PickRound(target, shortlist);
      if |picks| == 0 {
        settled := true;
        NobodyLeft(target, shortlist);
      } else {
        ghost var before, said := shortlist, held + answered;
        shortlist, answered := AskPicked(table, target, shortlist, picks, marked, held, answered);
        OneMoreCourse(target, seeds, rounds, known, before, said, picks, shortlist, held + answered);
        rounds, known := rounds + [picks], known + [before];
        cancelled := *;
        round := round + 1;
      }
    }
    m, heard := shortlist, shortlist.Keys;
    CourseMeans(target, seeds, rounds, known, m, held + answered);
    AddressedMeans(m, held + answered);
    AskedAreFew(target, rounds, known, m);
    out := Result(target, shortlist, held + answered);
    if settled {
      AllAskedMeans(target, shortlist, IdsIn(out));
      assert forall n :: n in out ==> n.id in IdsIn(out) by { AreIn(out); }
    }
  }

  /** The shortlist with which a lookup starts: the nearest contacts of the table. */
  method Start(table: Table, target: NodeId) returns (m: Shortlist, ghost held: seq<NodeAddr>)
    requires table.Valid() && IsId(target)
    ensures Course(target, Ids(table.buckets), [], [], m, held) && forall n :: n in held ==> InTable(table.buckets, n)
  {
    hide NearestFirst, Rounds, IsClosest, Ids, BucketOk, Addressed, InTable;
    var first := table.FindClosest(target, LOOKUP_K);
    FirstAreHeld(target, Ids(table.buckets), first);
    m, held := Seeds(table, first);
    StartOfLookup(target, Ids(table.buckets), first, m);
  }

  /** One round: the picks are asked, and what they answer is learned. */
  method AskPicked(table: Table, target: NodeId, m: Shortlist, picks: seq<NodeId>, marked: Shortlist, ghost held: seq<NodeAddr>, ghost answered: seq<NodeAddr>)
    returns (m': Shortlist, ghost answered': seq<NodeAddr>)
    requires table.Valid() && AllIds(m) && IsRound(target, m, picks) && Addressed(m, held + answered)
    requires marked.Keys == m.Keys && Queried(marked) == Queried(m) + (set id | id in picks) && forall id :: id in m ==> marked[id].addr == m[id].addr
    modifies table
    ensures table.Valid() && Ids(table.buckets) == Ids(old(table.buckets))
    ensures AllIds(m') && m.Keys <= m'.Keys && Queried(m') == Queried(m) + (set id | id in picks) && Addressed(m', held + answered')
  {
    hide IsRound, Queried, Ids, BucketOk, Addressed;
    PicksAreIds(target, m, picks);
    assert AllIds(marked) by { assert forall id :: id in marked ==> id in m; }
    SameAddresses(m, marked, held + answered);
    ghost var answers;
    m', answers := AskRound(table, picks, marked, held + answered);
    assert held + answered + Spoken(answers) == held + (answered + Spoken(answers));
    answered' := answered + Spoken(answers);
  }

  /** A lookup so far. */
  ghost predicate Course(target: NodeId, seeds: set<NodeId>, rounds: seq<seq<NodeId>>, known: seq<Shortlist>, m: Shortlist, said: seq<NodeAddr>) {
    && AllIds(m) && Addressed(m, said) && Rounds(target, rounds, known, m)
    && forall id :: id in seeds && id !in m.Keys ==> |m.Keys| >= LOOKUP_K
  }

  lemma {:induction false} CourseMeans(target: NodeId, seeds: set<NodeId>, rounds: seq<seq<NodeId>>, known: seq<Shortlist>, m: Shortlist, said: seq<NodeAddr>)
    requires Course(target, seeds, rounds, known, m, said)
    ensures AllIds(m) && Addressed(m, said) && Rounds(target, rounds, known, m)
    ensures forall id :: id in seeds && id !in m.Keys ==> |m.Keys| >= LOOKUP_K
  {
  }

  lemma {:induction false} OneMoreCourse(target: NodeId, seeds: set<NodeId>, rounds: seq<seq<NodeId>>, known: seq<Shortlist>, m: Shortlist, said: seq<NodeAddr>,
                                         picks: seq<NodeId>, m': Shortlist, said': seq<NodeAddr>)
    requires Course(target, seeds, rounds, known, m, said) && |rounds| < MAX_LOOKUP_ROUNDS && picks != [] && IsRound(target, m, picks)
    requires AllIds(m') && m.Keys <= m'.Keys && Queried(m') == Queried(m) + (set id | id in picks) && Addressed(m', said')
    ensures Course(target, seeds, rounds + [picks], known + [m], m', said')
  {
    hide IsRound, Queried, Addressed, Rounds;
    GrowsOnly(m.Keys, m'.Keys);
    OneMoreRound(target, rounds, known, m, picks, m');
  }

  function IdsIn(nodes: seq<NodeAddr>): (ids: seq<NodeId>) {
    seq(|nodes|, i requires 0 <= i < |nodes| => nodes[i].id)
  }

  lemma {:induction false} AreIn(nodes: seq<NodeAddr>)
    ensures forall n :: n in nodes ==> n.id in IdsIn(nodes)
  {
    forall n | n in nodes ensures n.id in IdsIn(nodes) {
      var i :| 0 <= i < |nodes| && nodes[i] == n;
      assert IdsIn(nodes)[i] == n.id;
    }
  }

  /** The nearest of the shortlist, with their addresses. */
  method Result(target: NodeId, m: Shortlist, ghost said: seq<NodeAddr>) returns (out: seq<NodeAddr>)
    requires IsId(target) && AllIds(m) && Addressed(m, said)
    ensures IsClosest(target, m.Keys, LOOKUP_K, IdsIn(out)) && forall n :: n in out ==> FirstNamed(said, n)
  {
    hide IsClosest, FirstNamed, Addressed;
    AddressedMeans(m, said);
    var ids := Closest(target, m.Keys, LOOKUP_K);
    ClosestAreIds(target, m, ids);
    out := [];
    for i := 0 to |ids|
      invariant |out| == i && forall k :: 0 <= k < i ==> out[k].id == ids[k] && FirstNamed(said, out[k])
    {
      assert ids[i] in ids;
      out := out + [NodeAddr(ids[i], m[ids[i]].addr)];
    }
    assert IdsIn(out) == ids;
  }

  lemma {:induction false} FirstAreHeld(target: NodeId, all: set<NodeId>, first: seq<NodeId>)
    requires IsClosest(target, all, LOOKUP_K, first)
    ensures forall id :: id in first ==> id in all
    ensures forall i, j :: 0 <= i < j < |first| ==> first[i] != first[j]
  {
    forall i, j | 0 <= i < j < |first| ensures first[i] != first[j] {
      if first[i] == first[j] {
        PlacesAreUnique(target, first, i, j);
      }
    }
  }

  lemma {:induction false} AddressedMeans(m: Shortlist, said: seq<NodeAddr>)
    requires Addressed(m, said)
    ensures m.Keys == set n | n in said :: n.id
    ensures forall id :: id in m ==> FirstNamed(said, NodeAddr(id, m[id].addr))
  {
    hide FirstNamed;
    forall id | id in m ensures exists n :: n in said && n.id == id {
      NamedSomewhere(said, NodeAddr(id, m[id].addr));
    }
  }

  lemma {:induction false} NamedSomewhere(said: seq<NodeAddr>, n: NodeAddr)
    requires FirstNamed(said, n)
    ensures n in said
  {
  }

  lemma {:induction false} AskedAreFew(target: NodeId, rounds: seq<seq<NodeId>>, known: seq<Shortlist>, m: Shortlist)
    requires Rounds(target, rounds, known, m)
    ensures |Queried(m)| <= 60
  {
  }

  lemma {:induction false} ClosestAreIds(target: NodeId, m: Shortlist, ids: seq<NodeId>)
    requires IsClosest(target, m.Keys, LOOKUP_K, ids)
    ensures forall id :: id in ids ==> id in m
  {
  }

  lemma {:induction false} NobodyLeft(target: NodeId, m: Shortlist)
    requires exists top :: IsClosest(target, m.Keys, LOOKUP_K, top) && forall id :: id in top ==> id in Queried(m)
    ensures AllAsked(target, m)
  {
  }

  /** Everyone among the nearest known has been asked. */
  ghost predicate AllAsked(target: NodeId, m: Shortlist) {
    exists top :: IsClosest(target, m.Keys, LOOKUP_K, top) && forall id :: id in top ==> id in Queried(m)
  }

  lemma {:induction false} AllAskedMeans(target: NodeId, m: Shortlist, ids: seq<NodeId>)
    requires IsId(target) && AllAsked(target, m) && IsClosest(target, m.Keys, LOOKUP_K, ids)
    ensures forall id :: id in ids ==> id in Queried(m)
  {
    var top :| IsClosest(target, m.Keys, LOOKUP_K, top) && forall id :: id in top ==> id in Queried(m);
    ClosestIsUnique(target, m.Keys, LOOKUP_K, top, ids, |top|);
    assert top[..|top|] == top && ids[..|ids|] == ids;
  }

  lemma {:induction false} StartOfLookup(target: NodeId, seeds: set<NodeId>, first: seq<NodeId>, m: Shortlist)
    requires IsClosest(target, seeds, LOOKUP_K, first) && m.Keys == (set id | id in first) && forall id :: id in m ==> !m[id].queried
    ensures Rounds(target, [], [], m)
    ensures forall id :: id in seeds && id !in m.Keys ==> |m.Keys| >= LOOKUP_K
  {
    assert Queried(m) == {};
    DistinctSize(target, first);
    forall id | id in seeds && id !in first ensures |first| >= LOOKUP_K {
      if |first| == |seeds| {
        SubsetOfSameSize((set x | x in first), seeds);
      }
    }
  }

  lemma {:induction false} DistinctSize(target: NodeId, ids: seq<NodeId>)
    requires NearestFirst(target, ids)
    ensures |set id | id in ids| == |ids|
    decreases |ids|
  {
    if ids == [] {
      assert (set id | id in ids) == {};
    } else {
      var n := |ids| - 1;
      DistinctSize(target, ids[..n]);
      FreshInOrder(target, ids, n);
      assert ids == ids[..n] + [ids[n]];
      assert (set id | id in ids) == (set id | id in ids[..n]) + {ids[n]};
    }
  }

  lemma {:induction false} SubsetOfSameSize(a: set<NodeId>, b: set<NodeId>)
    requires a <= b && |a| == |b|
    ensures a == b
  {
    assert b == a + (b - a);
    if b - a != {} {
      var x := SomeMember(b - a);
    }
  }

  lemma {:induction false} GrowsOnly(a: set<NodeId>, b: set<NodeId>)
    requires a <= b
    ensures |a| <= |b|
  {
    assert b == a + (b - a);
  }

  lemma {:induction false} PicksAreIds(target: NodeId, m: Shortlist, picks: seq<NodeId>)
    requires AllIds(m) && IsRound(target, m, picks)
    ensures forall id :: id in picks ==> IsId(id)
  {
  }
}
