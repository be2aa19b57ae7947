/** The sliding-window script on one tenant's key: a sorted set of admitted requests with a key expiry. */
module SlidingWindow {
  import opened Sets

  type ReqId = string

  /** Members with their scores; from `expireAt` on the server treats the key as absent. */
  datatype Key = Key(scores: map<ReqId, nat>, expireAt: nat)

  const Absent := Key(map[], 0)

  datatype Verdict = Verdict(allowed: bool, remaining: int, limit: nat)

  function Visible(key: Key, now: nat): map<ReqId, nat> {
    if key.expireAt <= now then map[] else key.scores
  }

  /** Removes the members scored from 0 up to and including `now - window`. */
  function Trim(scores: map<ReqId, nat>, now: nat, window: nat): map<ReqId, nat> {
    map id | id in scores && scores[id] > now - window :: scores[id]
  }

  function Script(key: Key, now: nat, window: nat, limit: nat, id: ReqId): (Key, Verdict) {
    var kept := Trim(Visible(key, now), now, window);
    if |kept| < limit then (Key(kept[id := now], now + window), Verdict(true, limit - |kept| - 1, limit))
    else (Key(kept, if key.expireAt <= now then 0 else key.expireAt), Verdict(false, 0, limit))
  }

  // ---------------------------------------------------------------------------------------------
  // Runs
  // ---------------------------------------------------------------------------------------------

  datatype Request = Request(now: nat, id: ReqId)

  /** The key with every admission so far, and the time of the latest request. */
  datatype State = State(key: Key, log: map<ReqId, nat>, now: nat)

  predicate Enabled(s: State, r: Request) {
    s.now <= r.now && r.id !in s.log
  }

  function Next(s: State, r: Request, window: nat, limit: nat): State {
    var (key, v) := Script(s.key, r.now, window, limit, r.id);
    State(key, if v.allowed then s.log[r.id := r.now] else s.log, r.now)
  }

  /** The clock never goes back and no admitted request's id is used again. */
  predicate Legal(s: State, rs: seq<Request>, window: nat, limit: nat)
    decreases |rs|
  {
    rs != [] ==> Enabled(s, rs[0]) && Legal(Next(s, rs[0], window, limit), rs[1..], window, limit)
  }

  function Run(s: State, rs: seq<Request>, window: nat, limit: nat): State
    decreases |rs|
  {
    if rs == [] then s else Run(Next(s, rs[0], window, limit), rs[1..], window, limit)
  }

  ghost predicate Reachable(s: State, window: nat, limit: nat) {
    exists start: nat, rs ::
      Legal(State(Absent, map[], start), rs, window, limit) && s == Run(State(Absent, map[], start), rs, window, limit)
  }

  /** The admissions in the half-open interval of window length that starts at `a`. */
  function Within(log: map<ReqId, nat>, a: int, window: nat): set<ReqId> {
    set id | id in log && a <= log[id] < a + window
  }

  /** The admissions that count against a request at `now`. */
  function Counting(log: map<ReqId, nat>, now: nat, window: nat): map<ReqId, nat> {
    Trim(log, now, window)
  }

  ghost predicate Bounded(log: map<ReqId, nat>, window: nat, limit: nat) {
    forall a: int :: |Within(log, a, window)| <= limit
  }

  ghost predicate Inv(s: State, window: nat, limit: nat) {
    && (forall id :: id in s.log ==> s.log[id] <= s.now)
    && (forall id :: id in s.key.scores ==> id in s.log && s.key.scores[id] == s.log[id])
    && (forall id :: id in s.log && s.log[id] > s.now - window ==> id in s.key.scores)
    && (forall id :: id in s.log ==> s.log[id] + window <= s.key.expireAt || s.log[id] + window <= s.now)
    && Bounded(s.log, window, limit)
  }

  /** What the script counts is exactly what was admitted in the window that ends now. */
  lemma TrimIsExact(s: State, now: nat, window: nat, limit: nat)
    requires Inv(s, window, limit) && s.now <= now
    ensures Trim(Visible(s.key, now), now, window) == Counting(s.log, now, window)
  {
  }

  lemma AdmissionBounded(log: map<ReqId, nat>, now: nat, window: nat, limit: nat, id: ReqId)
    requires Bounded(log, window, limit) && id !in log && (forall i :: i in log ==> log[i] <= now)
    requires |Counting(log, now, window)| < limit
    ensures Bounded(log[id := now], window, limit)
  {
    forall a: int {:trigger Within(log[id := now], a, window)}
      ensures |Within(log[id := now], a, window)| <= limit
    {
      var after := Within(log[id := now], a, window);
      if a <= now < a + window {
        var counting := Counting(log, now, window).Keys + {id};
        assert after <= counting;
        SubsetSize(after, counting);
        assert |counting| <= |Counting(log, now, window)| + 1;
      } else {
        assert after == Within(log, a, window);
      }
    }
  }

  lemma InvStep(s: State, r: Request, window: nat, limit: nat)
    requires Inv(s, window, limit) && Enabled(s, r)
    ensures Inv(Next(s, r, window, limit), window, limit)
  {
    TrimIsExact(s, r.now, window, limit);
    if |Counting(s.log, r.now, window)| < limit {
      AdmissionBounded(s.log, r.now, window, limit, r.id);
    }
  }

  lemma {:induction false} RunInv(s: State, rs: seq<Request>, window: nat, limit: nat)
    requires Inv(s, window, limit) && Legal(s, rs, window, limit)
    ensures Inv(Run(s, rs, window, limit), window, limit)
    decreases |rs|
  {
    if rs != [] {
      InvStep(s, rs[0], window, limit);
      RunInv(Next(s, rs[0], window, limit), rs[1..], window, limit);
    }
  }

  lemma ReachableInv(s: State, window: nat, limit: nat)
    requires Reachable(s, window, limit)
    ensures Inv(s, window, limit)
  {
    var start: nat, rs :|
      Legal(State(Absent, map[], start), rs, window, limit) && s == Run(State(Absent, map[], start), rs, window, limit);
    var init := State(Absent, map[], start);
    assert forall a: int :: Within(init.log, a, window) == {};
    RunInv(init, rs, window, limit);
  }

  /** Every half-open interval of window length holds at most `limit` admissions. */
  lemma WindowBound(s: State, window: nat, limit: nat, a: int)
    requires Reachable(s, window, limit)
    ensures |Within(s.log, a, window)| <= limit
  {
    ReachableInv(s, window, limit);
  }

  /** A request is admitted exactly when fewer than `limit` were admitted in the window that ends with it. */
  lemma AdmittedExactly(s: State, r: Request, window: nat, limit: nat)
    requires Reachable(s, window, limit) && Enabled(s, r)
    ensures
      var v := Script(s.key, r.now, window, limit, r.id).1;
      var counting := |Within(s.log, r.now - window + 1, window)|;
      && (v.allowed <==> counting < limit) && v.limit == limit
      && v.remaining == if v.allowed then limit - counting - 1 else 0
  {
    ReachableInv(s, window, limit);
    TrimIsExact(s, r.now, window, limit);
    assert Counting(s.log, r.now, window).Keys == Within(s.log, r.now - window + 1, window);
  }

  /** The key expires with its latest admission's window. */
  ghost predicate ExpiryOk(s: State, window: nat) {
    s.key.expireAt == 0 || exists id :: id in s.log && s.log[id] + window == s.key.expireAt
  }

  lemma {:induction false} ExpiryRun(s: State, rs: seq<Request>, window: nat, limit: nat)
    requires ExpiryOk(s, window) && Legal(s, rs, window, limit)
    ensures ExpiryOk(Run(s, rs, window, limit), window)
    decreases |rs|
  {
    if rs != [] {
      var t := Next(s, rs[0], window, limit);
      assert rs[0].id in t.log || t.log == s.log;
      ExpiryRun(t, rs[1..], window, limit);
    }
  }

  /** The key is gone exactly when no admission counts any more. */
  lemma KeyGoneExactly(s: State, window: nat, limit: nat, now: nat)
    requires Reachable(s, window, limit) && s.now <= now
    ensures Visible(s.key, now) == map[] <==> forall id :: id in s.log ==> s.log[id] + window <= now
  {
    ReachableInv(s, window, limit);
    var start: nat, rs :|
      Legal(State(Absent, map[], start), rs, window, limit) && s == Run(State(Absent, map[], start), rs, window, limit);
    ExpiryRun(State(Absent, map[], start), rs, window, limit);
  }

  /** Neither trimming nor the key's expiry drops an admission that still counts. */
  lemma NothingCountingIsDropped(s: State, window: nat, limit: nat, now: nat, id: ReqId)
    requires Reachable(s, window, limit) && s.now <= now && id in s.log && now < s.log[id] + window
    ensures id in Trim(Visible(s.key, now), now, window) && s.key.scores[id] == s.log[id]
  {
    ReachableInv(s, window, limit);
    TrimIsExact(s, now, window, limit);
  }

  // ---------------------------------------------------------------------------------------------
  // The script as it runs at the server
  // ---------------------------------------------------------------------------------------------

  class SortedSet {
    var scores: map<ReqId, nat>
    var expireAt: nat

    constructor ()
      ensures Value() == Absent
    {
      scores, expireAt := map[], 0;
    }

    function Value(): Key
      reads this
    {
      Key(scores, expireAt)
    }

    method Admit(now: nat, window: nat, limit: nat, id: ReqId) returns (v: Verdict)
      modifies this
      ensures (Value(), v) == Script(old(Value()), now, window, limit, id)
    {
      if expireAt <= now {
        scores, expireAt := map[], 0;
      }
      var clearBefore := now - window;
      scores := map m | m in scores && !(0 <= scores[m] <= clearBefore) :: scores[m];
      assert scores == Trim(Visible(old(Value()), now), now, window);
      var currentCount := |scores|;
      if currentCount < limit {
        scores := scores[id := now];
        expireAt := now + window;
        return Verdict(true, limit - currentCount - 1, limit);
      }
      return Verdict(false, 0, limit);
    }
  }
}
