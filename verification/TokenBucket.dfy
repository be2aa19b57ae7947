/** Per-tenant token buckets, with the bucket arithmetic over the reals. */
module TokenBucket {
  type Tenant = string

  datatype Bucket = Bucket(tokens: real, maxBurst: real, rps: real, lastTime: real)

  predicate InRange(b: Bucket) {
    0.0 <= b.tokens <= b.maxBurst && 0.0 <= b.rps
  }

  /** The tokens earned by `now`; a reading that is not later than the last one earns nothing. */
  function Earned(b: Bucket, now: real): real {
    if now > b.lastTime then (now - b.lastTime) * b.rps else 0.0
  }

  function Refill(b: Bucket, now: real): Bucket {
    if now > b.lastTime then
      var full := b.tokens + Earned(b, now);
      b.(tokens := if full > b.maxBurst then b.maxBurst else full, lastTime := now)
    else b
  }

  function Allow(b: Bucket, now: real): (Bucket, bool) {
    var r := Refill(b, now);
    if r.tokens < 1.0 then (r, false) else (r.(tokens := r.tokens - 1.0), true)
  }

  // ---------------------------------------------------------------------------------------------
  // Any stretch of calls on one bucket
  // ---------------------------------------------------------------------------------------------

  function Calls(b: Bucket, nows: seq<real>): Bucket {
    if nows == [] then b else Allow(Calls(b, nows[..|nows| - 1]), nows[|nows| - 1]).0
  }

  function Admitted(b: Bucket, nows: seq<real>): nat {
    if nows == [] then 0
    else
      var init, last := nows[..|nows| - 1], nows[|nows| - 1];
      Admitted(b, init) + if Allow(Calls(b, init), last).1 then 1 else 0
  }

  /** By how much `level` is over the brim. */
  function Overflow(level: real, brim: real): (over: real)
    ensures over >= 0.0
  {
    if level > brim then level - brim else 0.0
  }

  /** The earned tokens that did not fit into the bucket. */
  function Spilled(b: Bucket, nows: seq<real>): real {
    if nows == [] then 0.0
    else
      var init, last := nows[..|nows| - 1], nows[|nows| - 1];
      var c := Calls(b, init);
      Spilled(b, init) + Overflow(c.tokens + Earned(c, last), c.maxBurst)
  }

  /** The tokens earned over a stretch, whether or not they fitted. */
  function TotalEarned(b: Bucket, nows: seq<real>): real {
    if nows == [] then 0.0
    else
      var init, last := nows[..|nows| - 1], nows[|nows| - 1];
      TotalEarned(b, init) + Earned(Calls(b, init), last)
  }

  lemma EarnedNonNegative(b: Bucket, now: real)
    requires 0.0 <= b.rps
    ensures 0.0 <= Earned(b, now)
  {
  }

  lemma AllowKeepsRange(b: Bucket, now: real)
    requires InRange(b)
    ensures
      var c := Allow(b, now).0;
      InRange(c) && c.maxBurst == b.maxBurst && c.rps == b.rps && b.lastTime <= c.lastTime
    ensures Refill(b, now).tokens <= b.tokens + Earned(b, now)
  {
    EarnedNonNegative(b, now);
  }

  lemma {:induction false} CallsKeepRange(b: Bucket, nows: seq<real>)
    requires InRange(b)
    ensures
      var c := Calls(b, nows);
      InRange(c) && c.maxBurst == b.maxBurst && c.rps == b.rps && b.lastTime <= c.lastTime
  {
    if nows != [] {
      CallsKeepRange(b, nows[..|nows| - 1]);
      AllowKeepsRange(Calls(b, nows[..|nows| - 1]), nows[|nows| - 1]);
    }
  }

  /** Every token earned is still in the bucket, was spent on an admitted request, or spilled. */
  lemma {:induction false} TokensConserved(b: Bucket, nows: seq<real>)
    requires InRange(b)
    ensures Spilled(b, nows) >= 0.0
    ensures Calls(b, nows).tokens + Admitted(b, nows) as real + Spilled(b, nows) == b.tokens + TotalEarned(b, nows)
  {
    if nows != [] {
      var init, last := nows[..|nows| - 1], nows[|nows| - 1];
      TokensConserved(b, init);
      CallsKeepRange(b, init);
      AllowKeepsRange(Calls(b, init), last);
    }
  }

  /** The tokens on hand at the last call, before it is answered: all that was earned and neither spent nor spilled. */
  function OnHand(b: Bucket, nows: seq<real>): real
    requires nows != []
  {
    b.tokens + TotalEarned(b, nows) - Admitted(b, nows[..|nows| - 1]) as real - Spilled(b, nows)
  }

  /** A request is refused exactly when less than one token is on hand; tokens spill only from a full bucket. */
  lemma RefusedExactly(b: Bucket, nows: seq<real>)
    requires InRange(b) && nows != []
    ensures Admitted(b, nows) == Admitted(b, nows[..|nows| - 1]) + if OnHand(b, nows) < 1.0 then 0 else 1
    ensures Spilled(b, nows) > Spilled(b, nows[..|nows| - 1]) ==> OnHand(b, nows) == b.maxBurst
  {
    var init, last := nows[..|nows| - 1], nows[|nows| - 1];
    TokensConserved(b, init);
    CallsKeepRange(b, init);
    AllowKeepsRange(Calls(b, init), last);
    assert OnHand(b, nows) == Refill(Calls(b, init), last).tokens;
  }

  /** What is earned depends only on how far the last accepted clock reading advanced. */
  lemma {:induction false} EarnedByAdvance(b: Bucket, nows: seq<real>)
    requires InRange(b)
    ensures TotalEarned(b, nows) == Accrual(b, Calls(b, nows))
  {
    if nows != [] {
      var init, last := nows[..|nows| - 1], nows[|nows| - 1];
      EarnedByAdvance(b, init);
      CallsKeepRange(b, init);
      var c := Calls(b, init);
      EarnedStep(b, c, last, TotalEarned(b, init));
      assert Calls(b, nows) == Allow(c, last).0 && TotalEarned(b, nows) == TotalEarned(b, init) + Earned(c, last);
    }
  }

  /** The rate times the advance of the clock from one state of a bucket to a later one. */
  function Accrual(b: Bucket, c: Bucket): real {
    b.rps * (c.lastTime - b.lastTime)
  }

  lemma EarnedStep(b: Bucket, c: Bucket, now: real, soFar: real)
    requires soFar == Accrual(b, c) && c.rps == b.rps
    ensures soFar + Earned(c, now) == Accrual(b, Allow(c, now).0)
  {
    AdvancesAdd(b.rps, b.lastTime, c.lastTime, Allow(c, now).0.lastTime, soFar, Earned(c, now));
  }

  lemma AdvancesAdd(rps: real, x: real, y: real, z: real, first: real, second: real)
    requires first == rps * (y - x) && second == rps * (z - y)
    ensures first + second == rps * (z - x)
  {
  }

  /** Over any stretch of calls, admissions are at most the burst plus the rate times the clock's advance. */
  lemma AdmissionBound(b: Bucket, nows: seq<real>)
    requires InRange(b)
    ensures Admitted(b, nows) as real <= b.maxBurst + Accrual(b, Calls(b, nows))
  {
    AdmittedWithinEarned(b, nows);
    EarnedByAdvance(b, nows);
  }

  lemma AdmittedWithinEarned(b: Bucket, nows: seq<real>)
    requires InRange(b)
    ensures Admitted(b, nows) as real <= b.maxBurst + TotalEarned(b, nows)
  {
    TokensConserved(b, nows);
    CallsKeepRange(b, nows);
  }

  // ---------------------------------------------------------------------------------------------
  // Admission by the clock alone
  // ---------------------------------------------------------------------------------------------

  /** The latest of `start` and the readings. */
  function Latest(start: real, nows: seq<real>): real {
    if nows == [] then start
    else
      var before, now := Latest(start, nows[..|nows| - 1]), nows[|nows| - 1];
      if now > before then now else before
  }

  /** The latest reading once the first `k` calls have been made. */
  function ClockAt(b: Bucket, nows: seq<real>, k: nat): real
    requires k <= |nows|
  {
    Latest(b.lastTime, nows[..k])
  }

  /** How many of the calls from `j` to `k` were admitted. */
  function AdmittedFrom(b: Bucket, nows: seq<real>, j: nat, k: nat): int
    requires j <= k <= |nows|
  {
    Admitted(b, nows[..k]) - Admitted(b, nows[..j])
  }

  /** The tokens earned at the rate between two readings. */
  function Gain(rps: real, start: real, end: real): real {
    rps * (end - start)
  }

  lemma GainsAdd(rps: real, x: real, y: real, z: real)
    ensures Gain(rps, x, y) + Gain(rps, y, z) == Gain(rps, x, z)
  {
    AdvancesAdd(rps, x, y, z, Gain(rps, x, y), Gain(rps, y, z));
  }

  /** What a full bucket at call `j` would have left at call `k`, had nothing spilled since. */
  function LeftSince(b: Bucket, nows: seq<real>, j: nat, k: nat): real
    requires j <= k < |nows|
  {
    b.maxBurst + Gain(b.rps, ClockAt(b, nows, j + 1), ClockAt(b, nows, k + 1)) - AdmittedFrom(b, nows, j, k) as real
  }

  /** The same of the bucket as it was at the start. */
  function LeftSinceStart(b: Bucket, nows: seq<real>, k: nat): real
    requires k < |nows|
  {
    b.tokens + Gain(b.rps, b.lastTime, ClockAt(b, nows, k + 1)) - AdmittedFrom(b, nows, 0, k) as real
  }

  /** Neither the start nor any full bucket since leaves less than `x` at call `k`. */
  ghost predicate Affords(b: Bucket, nows: seq<real>, k: nat, x: real)
    requires k < |nows|
  {
    LeftSinceStart(b, nows, k) >= x && forall j :: 0 <= j <= k ==> LeftSince(b, nows, j, k) >= x
  }

  /** The tokens at call `k`, before it is answered. */
  function LevelAt(b: Bucket, nows: seq<real>, k: nat): real
    requires k < |nows|
  {
    Refill(Calls(b, nows[..k]), nows[k]).tokens
  }

  lemma {:induction false} CallsClock(b: Bucket, nows: seq<real>)
    ensures Calls(b, nows).lastTime == Latest(b.lastTime, nows)
  {
    if nows != [] {
      CallsClock(b, nows[..|nows| - 1]);
    }
  }

  lemma PrefixInit(nows: seq<real>, k: nat)
    requires k < |nows|
    ensures nows[..k + 1][..k] == nows[..k] && nows[..k + 1][k] == nows[k]
  {}

  /** What comes in between call `k` and the next one, less what call `k` took. */
  function Flow(b: Bucket, nows: seq<real>, k: nat): real
    requires k + 1 < |nows|
  {
    Gain(b.rps, ClockAt(b, nows, k + 1), ClockAt(b, nows, k + 2)) - AdmittedFrom(b, nows, k, k + 1) as real
  }

  lemma LeftStep(b: Bucket, nows: seq<real>, j: nat, k: nat)
    requires j <= k && k + 1 < |nows|
    ensures LeftSince(b, nows, j, k + 1) == LeftSince(b, nows, j, k) + Flow(b, nows, k)
  {
    GainsAdd(b.rps, ClockAt(b, nows, j + 1), ClockAt(b, nows, k + 1), ClockAt(b, nows, k + 2));
  }

  lemma LeftStartStep(b: Bucket, nows: seq<real>, k: nat)
    requires k + 1 < |nows|
    ensures LeftSinceStart(b, nows, k + 1) == LeftSinceStart(b, nows, k) + Flow(b, nows, k)
  {
    GainsAdd(b.rps, b.lastTime, ClockAt(b, nows, k + 1), ClockAt(b, nows, k + 2));
  }

  function Capped(level: real, brim: real): real {
    if level > brim then brim else level
  }

  lemma RefillLevel(c: Bucket, now: real, clock: real)
    requires InRange(c) && clock == if now > c.lastTime then now else c.lastTime
    ensures Refill(c, now).tokens == Capped(c.tokens + Gain(c.rps, c.lastTime, clock), c.maxBurst)
  {
    GainIsEarned(c, now, clock);
  }

  lemma GainIsEarned(c: Bucket, now: real, clock: real)
    requires clock == if now > c.lastTime then now else c.lastTime
    ensures Gain(c.rps, c.lastTime, clock) == Earned(c, now)
  {
    var advance := clock - c.lastTime;
    assert Gain(c.rps, c.lastTime, clock) == advance * c.rps;
  }

  lemma LevelAfter(b: Bucket, nows: seq<real>, k: nat)
    requires InRange(b) && k < |nows|
    ensures
      var c := Calls(b, nows[..k]);
      && c.lastTime == ClockAt(b, nows, k)
      && LevelAt(b, nows, k) == Capped(c.tokens + Gain(b.rps, c.lastTime, ClockAt(b, nows, k + 1)), b.maxBurst)
  {
    PrefixInit(nows, k);
    CallsKeepRange(b, nows[..k]);
    CallsClock(b, nows[..k]);
    RefillLevel(Calls(b, nows[..k]), nows[k], ClockAt(b, nows, k + 1));
  }

  lemma TokensAfter(b: Bucket, nows: seq<real>, k: nat)
    requires k < |nows|
    ensures Calls(b, nows[..k + 1]).tokens == LevelAt(b, nows, k) - AdmittedFrom(b, nows, k, k + 1) as real
    ensures AdmittedFrom(b, nows, k, k + 1) == if LevelAt(b, nows, k) >= 1.0 then 1 else 0
  {
    PrefixInit(nows, k);
  }

  lemma LevelStep(b: Bucket, nows: seq<real>, k: nat)
    requires InRange(b) && k + 1 < |nows|
    ensures LevelAt(b, nows, k + 1) == Capped(LevelAt(b, nows, k) + Flow(b, nows, k), b.maxBurst)
  {
    TokensAfter(b, nows, k);
    LevelAfter(b, nows, k + 1);
  }

  lemma FirstAffords(b: Bucket, nows: seq<real>, x: real)
    requires InRange(b) && nows != []
    ensures LevelAt(b, nows, 0) >= x <==> Affords(b, nows, 0, x)
  {
    LevelAfter(b, nows, 0);
    assert nows[..0] == [] && Calls(b, []) == b;
    FullNow(b, nows, 0);
  }

  lemma AffordsStep(b: Bucket, nows: seq<real>, k: nat, x: real)
    requires k + 1 < |nows|
    ensures Affords(b, nows, k + 1, x) <==> b.maxBurst >= x && Affords(b, nows, k, x - Flow(b, nows, k))
  {
    var before := x - Flow(b, nows, k);
    LeftStartStep(b, nows, k);
    FullNow(b, nows, k + 1);
    if Affords(b, nows, k + 1, x) {
      assert LeftSince(b, nows, k + 1, k + 1) >= x;
      forall j | 0 <= j <= k
        ensures LeftSince(b, nows, j, k) >= before
      {
        LeftStep(b, nows, j, k);
        assert LeftSince(b, nows, j, k + 1) >= x;
      }
    }
    if b.maxBurst >= x && Affords(b, nows, k, before) {
      var n := k + 1;
      forall j | 0 <= j <= n
        ensures LeftSince(b, nows, j, n) >= x
      {
        if j <= k {
          LeftStep(b, nows, j, k);
          assert LeftSince(b, nows, j, k) >= before;
        }
      }
    }
  }

  lemma FullNow(b: Bucket, nows: seq<real>, k: nat)
    requires k < |nows|
    ensures LeftSince(b, nows, k, k) == b.maxBurst
  {}

  /** The level is the least of what the start and the full buckets since would leave. */
  lemma {:induction false} LevelIsLeast(b: Bucket, nows: seq<real>, k: nat, x: real)
    requires InRange(b) && k < |nows|
    ensures LevelAt(b, nows, k) >= x <==> Affords(b, nows, k, x)
    decreases k
  {
    if k == 0 {
      FirstAffords(b, nows, x);
    } else {
      LevelIsLeast(b, nows, k - 1, x - Flow(b, nows, k - 1));
      LevelStep(b, nows, k - 1);
      AffordsStep(b, nows, k - 1, x);
    }
  }

  /**
   Call `k` is admitted exactly if, counting it in, the admissions since the start do not exceed the starting
   tokens plus the rate times the advance of the clock since then, and those since any call `j` do not exceed
   the burst plus the rate times the advance since that one.
   */
  lemma AdmittedExactly(b: Bucket, nows: seq<real>, k: nat)
    requires InRange(b) && k < |nows|
    ensures AdmittedFrom(b, nows, k, k + 1) == if Affords(b, nows, k, 1.0) then 1 else 0
  {
    LevelIsLeast(b, nows, k, 1.0);
    TokensAfter(b, nows, k);
  }

  // ---------------------------------------------------------------------------------------------
  // Many tenants
  // ---------------------------------------------------------------------------------------------

  /** A call reads the clock once to create a missing bucket and once to spend from it. */
  datatype Request = Request(tenant: Tenant, created: real, now: real)

  type Buckets = map<Tenant, Bucket>

  function BucketOf(bs: Buckets, rps: int, burst: int, tenant: Tenant, now: real): Bucket {
    if tenant in bs then bs[tenant] else Bucket(burst as real, burst as real, rps as real, now)
  }

  function Serve(bs: Buckets, rps: int, burst: int, r: Request): (Buckets, bool) {
    var (b, ok) := Allow(BucketOf(bs, rps, burst, r.tenant, r.created), r.now);
    (bs[r.tenant := b], ok)
  }

  function ServeAll(bs: Buckets, rps: int, burst: int, rs: seq<Request>): Buckets
    decreases |rs|
  {
    if rs == [] then bs else ServeAll(Serve(bs, rps, burst, rs[0]).0, rps, burst, rs[1..])
  }

  /** The answers given to one tenant, in order. */
  function AnswersTo(bs: Buckets, rps: int, burst: int, rs: seq<Request>, tenant: Tenant): seq<bool>
    decreases |rs|
  {
    if rs == [] then []
    else
      var (next, ok) := Serve(bs, rps, burst, rs[0]);
      (if rs[0].tenant == tenant then [ok] else []) + AnswersTo(next, rps, burst, rs[1..], tenant)
  }

  function Only(rs: seq<Request>, tenant: Tenant): seq<Request>
    decreases |rs|
  {
    if rs == [] then []
    else (if rs[0].tenant == tenant then [rs[0]] else []) + Only(rs[1..], tenant)
  }

  /** A new tenant starts with a full burst: at one instant exactly the first `burst` calls are admitted. */
  lemma {:induction false} FreshBurst(bs: Buckets, rps: int, burst: nat, tenant: Tenant, t: real, nows: seq<real>)
    requires tenant !in bs && forall i :: 0 <= i < |nows| ==> nows[i] == t
    ensures
      var b := BucketOf(bs, rps, burst, tenant, t);
      var n := if |nows| <= burst then |nows| else burst;
      Admitted(b, nows) == n && Calls(b, nows) == b.(tokens := (burst - n) as real)
  {
    if nows != [] {
      FreshBurst(bs, rps, burst, tenant, t, nows[..|nows| - 1]);
    }
  }

  /** Two limiters that treat the tenant alike. */
  predicate SameFor(a: Buckets, b: Buckets, tenant: Tenant) {
    (tenant in a <==> tenant in b) && (tenant in a ==> a[tenant] == b[tenant])
  }

  /** A tenant's answers and bucket are what they would be if no other tenant ever called. */
  lemma {:induction false} TenantsIsolated(
    a: Buckets, b: Buckets, rps: int, burst: int, rs: seq<Request>, tenant: Tenant)
    requires SameFor(a, b, tenant)
    ensures AnswersTo(a, rps, burst, rs, tenant) == AnswersTo(b, rps, burst, Only(rs, tenant), tenant)
    ensures SameFor(ServeAll(a, rps, burst, rs), ServeAll(b, rps, burst, Only(rs, tenant)), tenant)
    decreases |rs|
  {
    if rs != [] {
      var a' := Serve(a, rps, burst, rs[0]).0;
      if rs[0].tenant == tenant {
        var b' := Serve(b, rps, burst, rs[0]).0;
        assert Only(rs, tenant)[1..] == Only(rs[1..], tenant);
        TenantsIsolated(a', b', rps, burst, rs[1..], tenant);
      } else {
        assert Only(rs, tenant) == Only(rs[1..], tenant);
        TenantsIsolated(a', b, rps, burst, rs[1..], tenant);
      }
    }
  }

  /** However the tenants' calls interleave, every bucket stays in range. */
  lemma {:induction false} AllInRange(bs: Buckets, rps: int, burst: int, rs: seq<Request>)
    requires 0 <= rps && 0 <= burst && forall t :: t in bs ==> InRange(bs[t])
    ensures forall t :: t in ServeAll(bs, rps, burst, rs) ==> InRange(ServeAll(bs, rps, burst, rs)[t])
    decreases |rs|
  {
    if rs != [] {
      AllowKeepsRange(BucketOf(bs, rps, burst, rs[0].tenant, rs[0].created), rs[0].now);
      AllInRange(Serve(bs, rps, burst, rs[0]).0, rps, burst, rs[1..]);
    }
  }

  // ---------------------------------------------------------------------------------------------
  // The limiter's objects
  // ---------------------------------------------------------------------------------------------

  class TenantBucket {
    var tokens: real
    const maxBurst: real
    const rps: real
    var lastTime: real

    constructor (burst: int, rps: int, now: real)
      ensures Value() == Bucket(burst as real, burst as real, rps as real, now)
    {
      tokens, maxBurst, this.rps, lastTime := burst as real, burst as real, rps as real, now;
    }

    function Value(): Bucket
      reads this
    {
      Bucket(tokens, maxBurst, rps, lastTime)
    }

    method Take(now: real) returns (ok: bool)
      modifies this
      ensures (Value(), ok) == Allow(old(Value()), now)
    {
      ghost var b := Value();
      var elapsed := now - lastTime;
      if elapsed > 0.0 {
        assert elapsed * rps == Earned(b, now);
        tokens := tokens + elapsed * rps;
        if tokens > maxBurst {
          tokens := maxBurst;
        }
        lastTime := now;
      }
      assert Value() == Refill(b, now);
      if tokens < 1.0 {
        return false;
      }
      tokens := tokens - 1.0;
      return true;
    }
  }

  class RateLimiter {
    var buckets: map<Tenant, TenantBucket>
    const rps: int
    const burst: int

    /** No two tenants share a bucket. */
    ghost predicate Valid()
      reads this
    {
      forall t, u :: t in buckets && u in buckets && t != u ==> buckets[t] != buckets[u]
    }

    ghost function Contents(): Buckets
      reads this, buckets.Values
    {
      map t | t in buckets :: buckets[t].Value()
    }

    constructor (rps: int, burst: int)
      ensures Valid() && Contents() == map[] && this.rps == rps && this.burst == burst
    {
      buckets, this.rps, this.burst := map[], rps, burst;
    }

    method GetBucket(tenant: Tenant, now: real) returns (b: TenantBucket)
      requires Valid()
      modifies this
      ensures Valid() && tenant in buckets && buckets[tenant] == b
      ensures Contents() == old(Contents())[tenant := BucketOf(old(Contents()), rps, burst, tenant, now)]
      ensures fresh(buckets.Values - old(buckets.Values))
    {
      if tenant !in buckets {
        var made := new TenantBucket(burst, rps, now);
        buckets := buckets[tenant := made];
      }
      b := buckets[tenant];
    }

    /** `created` and `now` are the two clock readings of one call. */
    method AllowRequest(tenant: Tenant, created: real, now: real) returns (ok: bool)
      requires Valid()
      modifies this, buckets.Values
      ensures Valid() && fresh(buckets.Values - old(buckets.Values))
      ensures (Contents(), ok) == Serve(old(Contents()), rps, burst, Request(tenant, created, now))
    {
      var b := GetBucket(tenant, created);
      ghost var mid := Contents();
      ok := b.Take(now);
      assert forall t :: t in buckets && t != tenant ==> buckets[t] != b;
      assert b.Value() == Allow(mid[tenant], now).0;
      assert Contents() == mid[tenant := b.Value()] == old(Contents())[tenant := b.Value()];
    }
  }
}
