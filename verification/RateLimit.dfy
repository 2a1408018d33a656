/** The token bucket: internal/ratelimit/ratelimit.go, with reals for float64 and the clock as an argument, in seconds. */
module RateLimit {
  const MIN_BURST := 16384.0

  datatype Bucket = Bucket(limit: real, burst: real, tokens: real, last: real)

  datatype Request = Request(at: real, n: int)

  /** When a request may go ahead. */
  datatype Grant = Grant(due: real, n: int)

  function MinR(a: real, b: real): (m: real) {
    if a <= b then a else b
  }

  function MaxR(a: real, b: real): (m: real) {
    if a <= b then b else a
  }

  /** The bucket after reserve, for a limited rate. */
  function Reserved(b: Bucket, r: Request): (b': Bucket) {
    var elapsed := r.at - b.last;
    var refilled := if elapsed > 0.0 then b.(tokens := MinR(b.tokens + elapsed * b.limit, b.burst), last := r.at) else b;
    refilled.(tokens := refilled.tokens - r.n as real)
  }

  /** How long the caller of reserve is told to wait. */
  function Delay(b: Bucket): (d: real)
    requires b.limit > 0.0
  {
    if b.tokens >= 0.0 then 0.0 else -b.tokens / b.limit
  }

  class Limiter {
    var limit: real
    var burst: real
    var tokens: real
    var last: real

    ghost function View(): (b: Bucket)
      reads this
    {
      Bucket(limit, burst, tokens, last)
    }

    constructor (bytesPerSecond: int, now: real)
      ensures View() == Full(bytesPerSecond, now)
    {
      limit := bytesPerSecond as real;
      burst := if bytesPerSecond as real < MIN_BURST then MIN_BURST else bytesPerSecond as real;
      tokens := if bytesPerSecond as real < MIN_BURST then MIN_BURST else bytesPerSecond as real;
      last := now;
    }

    /** SetLimit: saved-up credit is kept, up to the new burst. */
    method SetLimit(bytesPerSecond: int)
      modifies this
      ensures limit == bytesPerSecond as real && burst == MaxR(MIN_BURST, limit)
      ensures tokens == MinR(old(tokens), burst) && last == old(last)
    {
      limit := bytesPerSecond as real;
      burst := limit;
      if burst < MIN_BURST {
        burst := MIN_BURST;
      }
      if tokens > burst {
        tokens := burst;
      }
    }

    /** reserve, at time `now`. */
    method Reserve(n: int, now: real) returns (wait: real)
      modifies this
      ensures old(limit) <= 0.0 ==> wait == 0.0 && View() == old(View())
      ensures old(limit) > 0.0 ==> View() == Reserved(old(View()), Request(now, n)) && wait == Delay(View())
    {
      if limit <= 0.0 {
        return 0.0;
      }
      var elapsed := now - last;
      if elapsed > 0.0 {
        tokens := tokens + elapsed * limit;
        if tokens > burst {
          tokens := burst;
        }
        last := now;
      }
      tokens := tokens - n as real;
      if tokens >= 0.0 {
        return 0.0;
      }
      wait := -tokens / limit;
    }
  }

  /** New. */
  function Full(bytesPerSecond: int, now: real): (b: Bucket) {
    var limit := bytesPerSecond as real;
    Bucket(limit, MaxR(MIN_BURST, limit), MaxR(MIN_BURST, limit), now)
  }

  // ---------- schedules ----------

  /** Requests for at least a byte, in the order of the clock. */
  ghost predicate InOrder(since: real, rs: seq<Request>)
    decreases |rs|
  {
    rs != [] ==> since <= rs[0].at && rs[0].n > 0 && InOrder(rs[0].at, rs[1..])
  }

  /** What a run of reservations grants, with no wait cancelled. */
  function Grants(b: Bucket, rs: seq<Request>): (gs: seq<Grant>)
    requires b.limit > 0.0
    ensures |gs| == |rs|
    decreases |rs|
  {
    if rs == [] then []
    else
      var b' := Reserved(b, rs[0]);
      [Grant(rs[0].at + Delay(b'), rs[0].n)] + Grants(b', rs[1..])
  }

  /** The bytes granted in [s, t]. */
  function BytesIn(gs: seq<Grant>, s: real, t: real): (n: int) {
    if gs == [] then 0 else (if s <= gs[0].due <= t then gs[0].n else 0) + BytesIn(gs[1..], s, t)
  }

  function Largest(rs: seq<Request>): (n: int) {
    if rs == [] then 0 else if rs[0].n > Largest(rs[1..]) then rs[0].n else Largest(rs[1..])
  }

  /** What the rate allows in a stretch of time. */
  ghost function Allowed(limit: real, time: real): (bytes: real) {
    limit * time
  }

  /** Bytes the bucket has let through beyond the rate so far, measured from the clock's origin. */
  ghost function Level(b: Bucket): (e: real) {
    Allowed(b.limit, b.last) - b.tokens
  }

  ghost predicate Limited(b: Bucket) {
    b.limit > 0.0 && b.tokens <= b.burst
  }

  lemma {:induction false} Distributes(a: real, x: real, y: real)
    ensures a * (y - x) == a * y - a * x
  {
  }

  lemma {:induction false} Commutes(a: real, x: real)
    ensures a * x == x * a
  {
  }

  lemma {:induction false} ProductSign(a: real, d: real)
    requires a > 0.0
    ensures 0.0 <= d <==> 0.0 <= a * d
  {
  }

  lemma {:induction false} AllowedDiffers(a: real, x: real, y: real)
    ensures Allowed(a, y - x) == (y - x) * a == Allowed(a, y) - Allowed(a, x)
  {
    Distributes(a, x, y);
    Commutes(a, y - x);
  }

  lemma {:induction false} AllowedGrows(a: real, x: real, y: real)
    requires a > 0.0
    ensures x <= y <==> Allowed(a, x) <= Allowed(a, y)
  {
    Distributes(a, x, y);
    ProductSign(a, y - x);
  }

  /** One reservation raises the level by at least its bytes. */
  lemma {:induction false} ReservedRaises(b: Bucket, r: Request)
    requires Limited(b) && b.last <= r.at
    ensures var b' := Reserved(b, r);
            && b'.limit == b.limit && b'.burst == b.burst && b'.last == r.at
            && b'.tokens <= b.burst - r.n as real
            && Level(b') >= Level(b) + r.n as real
  {
    AllowedDiffers(b.limit, b.last, r.at);
    hide Allowed;
  }

  /** A grant falls due at the request, or when the level has been worked off. */
  lemma {:induction false} DueScaled(b: Bucket, at: real)
    requires b.limit > 0.0 && b.last == at
    ensures Allowed(b.limit, at + Delay(b)) == MaxR(Allowed(b.limit, at), Level(b))
  {
    if b.tokens < 0.0 {
      assert b.limit * (-b.tokens / b.limit) == -b.tokens;
    }
  }

  /** Everything granted up to t fits between the level and the rate times t. */
  lemma {:induction false} UpTo(b: Bucket, rs: seq<Request>, s: real, t: real)
    requires Limited(b) && InOrder(b.last, rs)
    ensures BytesIn(Grants(b, rs), s, t) as real <= MaxR(0.0, Allowed(b.limit, t) - Level(b))
    decreases |rs|
  {
    hide Allowed, Reserved, Delay, Level;
    if rs != [] {
      var r := rs[0];
      var b' := Reserved(b, r);
      ReservedRaises(b, r);
      UpTo(b', rs[1..], s, t);
      DueScaled(b', r.at);
      var gs := Grants(b, rs);
      assert gs[1..] == Grants(b', rs[1..]);
      AllowedGrows(b.limit, gs[0].due, t);
    }
  }

  /**
   * The rate bound, over every schedule: in any window the bytes granted are at most the burst, or
   * the largest request if that is more, plus what the rate allows.
   */
  lemma {:induction false} RateBound(b: Bucket, rs: seq<Request>, s: real, t: real)
    requires Limited(b) && b.burst >= 0.0 && InOrder(b.last, rs) && s <= t
    ensures BytesIn(Grants(b, rs), s, t) as real <= MaxR(b.burst, Largest(rs) as real) + Allowed(b.limit, t - s)
    decreases |rs|
  {
    hide Allowed, Reserved, Delay, Level;
    AllowedDiffers(b.limit, s, t);
    AllowedGrows(b.limit, s, t);
    if rs != [] {
      var r := rs[0];
      var b' := Reserved(b, r);
      ReservedRaises(b, r);
      DueScaled(b', r.at);
      var gs := Grants(b, rs);
      assert gs[1..] == Grants(b', rs[1..]);
      if s <= gs[0].due <= t {
        UpTo(b', rs[1..], s, t);
        AllowedGrows(b.limit, s, gs[0].due);
        FirstInWindow(b', r, s, t);
      } else {
        RateBound(b', rs[1..], s, t);
      }
    }
  }

  lemma {:induction false} FirstInWindow(b: Bucket, r: Request, s: real, t: real)
    requires b.limit > 0.0 && b.last == r.at && b.tokens <= b.burst - r.n as real && s <= t
    requires Allowed(b.limit, s) <= MaxR(Allowed(b.limit, r.at), Level(b))
    ensures r.n as real + MaxR(0.0, Allowed(b.limit, t) - Level(b)) <= MaxR(b.burst, r.n as real) + (Allowed(b.limit, t) - Allowed(b.limit, s))
  {
    hide Allowed;
    AllowedGrows(b.limit, s, t);
  }

  /** Grants fall due in the order of the reservations. */
  lemma {:induction false} DueInOrder(b: Bucket, rs: seq<Request>, i: int, j: int)
    requires Limited(b) && InOrder(b.last, rs) && 0 <= i <= j < |rs|
    ensures Grants(b, rs)[i].due <= Grants(b, rs)[j].due
    decreases |rs|
  {
    hide Allowed, Delay, Reserved, Level;
    var b' := Reserved(b, rs[0]);
    ReservedRaises(b, rs[0]);
    if i > 0 {
      DueInOrder(b', rs[1..], i - 1, j - 1);
    } else if j > 0 {
      DueInOrder(b', rs[1..], 0, j - 1);
      NextIsLater(b, rs);
    }
  }

  lemma {:induction false} NextIsLater(b: Bucket, rs: seq<Request>)
    requires Limited(b) && InOrder(b.last, rs) && |rs| > 1
    ensures Limited(Reserved(b, rs[0])) && Grants(b, rs)[0].due <= Grants(Reserved(b, rs[0]), rs[1..])[0].due
  {
    hide Allowed, Delay, Reserved, Level;
    var b1 := Reserved(b, rs[0]);
    var b2 := Reserved(b1, rs[1]);
    ReservedRaises(b, rs[0]);
    assert rs[1..][0] == rs[1];
    ReservedRaises(b1, rs[1]);
    DueScaled(b1, rs[0].at);
    DueScaled(b2, rs[1].at);
    AllowedGrows(b.limit, rs[0].at, rs[1].at);
    AllowedGrows(b.limit, rs[0].at + Delay(b1), rs[1].at + Delay(b2));
  }

  // ---------- and no less ----------

  /** The bytes asked for. */
  function Asked(rs: seq<Request>): (n: int) {
    if rs == [] then 0 else rs[0].n + Asked(rs[1..])
  }

  /** By how much requests i to k exceed a credit and what the rate has added to it since. */
  ghost function Excess(rs: seq<Request>, i: int, k: int, credit: real, since: real, limit: real): (e: real)
    requires 0 <= i <= k < |rs|
  {
    Asked(rs[i..k + 1]) as real - credit - Allowed(limit, rs[k].at - since)
  }

  /** Requests i to k against a full burst, and all requests up to k against what the bucket holds. */
  ghost function WindowExcess(b: Bucket, rs: seq<Request>, i: int, k: int): (e: real)
    requires 0 <= i <= k < |rs|
  {
    Excess(rs, i, k, b.burst, rs[i].at, b.limit)
  }

  ghost function LevelExcess(b: Bucket, rs: seq<Request>, k: int): (e: real)
    requires 0 <= k < |rs|
  {
    Excess(rs, 0, k, b.tokens, b.last, b.limit)
  }

  /** e is the largest excess of any requests that end with number k. */
  ghost predicate IsLargest(b: Bucket, rs: seq<Request>, k: int, e: real)
    requires 0 <= k < |rs|
  {
    && LevelExcess(b, rs, k) <= e
    && (forall i :: 0 <= i <= k ==> WindowExcess(b, rs, i, k) <= e)
    && (e == LevelExcess(b, rs, k) || exists i :: 0 <= i <= k && e == WindowExcess(b, rs, i, k))
  }

  /** What the bucket lacks after request k. */
  ghost function Debt(b: Bucket, rs: seq<Request>, k: int): (d: real)
    requires 0 <= k < |rs|
    decreases k
  {
    var b' := Reserved(b, rs[0]);
    if k == 0 then -b'.tokens else Debt(b', rs[1..], k - 1)
  }

  /** The first request, and what is left of the excess of later ones once it has been served. */
  lemma {:induction false} FirstServed(b: Bucket, rs: seq<Request>, k: int)
    requires Limited(b) && InOrder(b.last, rs) && 0 <= k < |rs|
    ensures k == 0 ==> -Reserved(b, rs[0]).tokens == MaxR(LevelExcess(b, rs, 0), WindowExcess(b, rs, 0, 0))
    ensures k > 0 ==> LevelExcess(Reserved(b, rs[0]), rs[1..], k - 1) == MaxR(LevelExcess(b, rs, k), WindowExcess(b, rs, 0, k))
  {
    var r := rs[0];
    AllowedDiffers(b.limit, b.last, r.at);
    AllowedDiffers(b.limit, r.at, rs[k].at);
    AllowedDiffers(b.limit, b.last, rs[k].at);
    AllowedDiffers(b.limit, r.at, r.at);
    ProductSign(b.limit, r.at - b.last);
    assert rs[..k + 1][1..] == rs[1..][..k] == rs[1..k + 1];
    assert rs[0..k + 1] == rs[..k + 1];
    hide Allowed;
    assert Asked(rs[..k + 1]) == r.n + Asked(rs[1..][..k]);
    if k > 0 {
      assert rs[1..][k - 1] == rs[k];
      assert rs[1..][0..k] == rs[1..][..k];
    } else {
      assert Asked(rs[1..][..0]) == 0;
    }
  }

  lemma {:induction false} LaterWindow(b: Bucket, rs: seq<Request>, i: int, k: int)
    requires 0 < i <= k < |rs|
    ensures WindowExcess(Reserved(b, rs[0]), rs[1..], i - 1, k - 1) == WindowExcess(b, rs, i, k)
  {
    hide Allowed;
    assert rs[1..][i - 1..k] == rs[i..k + 1];
  }

  lemma {:induction false} DebtIsLargestExcess(b: Bucket, rs: seq<Request>, k: int)
    requires Limited(b) && InOrder(b.last, rs) && 0 <= k < |rs|
    ensures IsLargest(b, rs, k, Debt(b, rs, k))
    decreases k
  {
    hide Allowed, Reserved, WindowExcess, LevelExcess, Limited;
    FirstServed(b, rs, k);
    if k > 0 {
      var b', rest, d := Reserved(b, rs[0]), rs[1..], Debt(b, rs, k);
      StaysLimited(b, rs[0]);
      DebtIsLargestExcess(b', rest, k - 1);
      forall i | 0 <= i <= k ensures WindowExcess(b, rs, i, k) <= d {
        if i > 0 {
          LaterWindow(b, rs, i, k);
          assert WindowExcess(b', rest, i - 1, k - 1) <= d;
        }
      }
      if d != LevelExcess(b', rest, k - 1) {
        var j :| 0 <= j <= k - 1 && d == WindowExcess(b', rest, j, k - 1);
        LaterWindow(b, rs, j + 1, k);
        assert d == WindowExcess(b, rs, j + 1, k);
      }
    }
  }

  lemma {:induction false} StaysLimited(b: Bucket, r: Request)
    requires Limited(b) && b.last <= r.at && r.n > 0
    ensures Limited(Reserved(b, r)) && Reserved(b, r).last == r.at && Reserved(b, r).limit == b.limit && Reserved(b, r).burst == b.burst
  {
    ReservedRaises(b, r);
  }

  lemma {:induction false} DueIsDebt(b: Bucket, rs: seq<Request>, k: int)
    requires Limited(b) && InOrder(b.last, rs) && 0 <= k < |rs|
    ensures Allowed(b.limit, Grants(b, rs)[k].due - rs[k].at) == MaxR(0.0, Debt(b, rs, k))
    decreases k
  {
    hide Reserved, Allowed;
    var b' := Reserved(b, rs[0]);
    StaysLimited(b, rs[0]);
    if k == 0 {
      DelayScaled(b', rs[0].at);
    } else {
      DueIsDebt(b', rs[1..], k - 1);
    }
  }

  lemma {:induction false} DelayScaled(b: Bucket, at: real)
    requires b.limit > 0.0
    ensures Allowed(b.limit, at + Delay(b) - at) == MaxR(0.0, -b.tokens)
  {
    if b.tokens < 0.0 {
      assert b.limit * (-b.tokens / b.limit) == -b.tokens;
    }
  }

  /**
   * The other half of the rate bound, over every schedule: a request waits only if some requests ending
   * with it exceed the burst, or what the bucket held, and the rate; and then for exactly as long as the rate
   * needs to make up the largest such excess.
   */
  lemma {:induction false} WaitsForExcessOnly(b: Bucket, rs: seq<Request>, k: int) returns (e: real)
    requires Limited(b) && InOrder(b.last, rs) && 0 <= k < |rs|
    ensures IsLargest(b, rs, k, e)
    ensures var wait := Grants(b, rs)[k].due - rs[k].at;
            if e <= 0.0 then wait == 0.0 else wait == e / b.limit
  {
    hide Reserved, Allowed, WindowExcess, LevelExcess;
    e := Debt(b, rs, k);
    DebtIsLargestExcess(b, rs, k);
    DueIsDebt(b, rs, k);
    Unscaled(b.limit, Grants(b, rs)[k].due - rs[k].at, MaxR(0.0, e));
  }

  lemma {:induction false} Unscaled(limit: real, wait: real, e: real)
    requires limit > 0.0 && Allowed(limit, wait) == e
    ensures wait == e / limit && (e == 0.0 ==> wait == 0.0)
  {
    assert limit * wait / limit == wait;
  }

  /** After enough idle time a request of at most the burst does not wait. */
  lemma {:induction false} IdleMeansNoWait(b: Bucket, r: Request)
    requires Limited(b) && 0 < r.n && r.n as real <= b.burst && b.last <= r.at && r.at - b.last >= (b.burst - b.tokens) / b.limit
    ensures Delay(Reserved(b, r)) == 0.0
  {
    var idle := r.at - b.last;
    assert b.limit * ((b.burst - b.tokens) / b.limit) == b.burst - b.tokens;
    ProductSign(b.limit, idle - (b.burst - b.tokens) / b.limit);
    Distributes(b.limit, (b.burst - b.tokens) / b.limit, idle);
    Commutes(b.limit, idle);
  }

  /** The bound for a bucket as New makes it. */
  lemma {:induction false} RateBoundFromNew(bytesPerSecond: int, now: real, rs: seq<Request>, s: real, t: real)
    requires bytesPerSecond > 0 && InOrder(now, rs) && s <= t
    ensures BytesIn(Grants(Full(bytesPerSecond, now), rs), s, t) as real
         <= MaxR(MaxR(MIN_BURST, bytesPerSecond as real), Largest(rs) as real) + Allowed(bytesPerSecond as real, t - s)
  {
    RateBound(Full(bytesPerSecond, now), rs, s, t);
  }
}
