/**
 Lease-based leader election over one shared lock key.  A call to the lock server is sent, executed and
 answered at three separate moments, and a caller may give up on a call that is executed later all the same.
 */
module Election {
  import opened Options
  import opened Sets

  type TokenId = nat
  type ElectorId = nat
  type CallId = nat

  /** The lock key: a token id with the instant from which the server treats the key as absent. */
  datatype Lock = Free | Held(tok: TokenId, expiry: int)

  datatype Command = Acquire(tok: TokenId) | Refresh(tok: TokenId) | Release(tok: TokenId)

  predicate HeldBy(lock: Lock, now: int, tok: TokenId) {
    lock.Held? && now < lock.expiry && lock.tok == tok
  }

  predicate Expired(lock: Lock, now: int) {
    lock.Free? || lock.expiry <= now
  }

  /** What one command does to the key, and whether the caller is told it succeeded. */
  function Execution(lock: Lock, now: int, ttl: int, cmd: Command): (Lock, bool) {
    match cmd
    case Acquire(tok) => if Expired(lock, now) then (Held(tok, now + ttl), true) else (lock, false)
    case Refresh(tok) => if HeldBy(lock, now, tok) then (Held(tok, now + ttl), true) else (lock, false)
    case Release(tok) => if HeldBy(lock, now, tok) then (Free, true) else (lock, false)
  }

  /** The two fields an elector keeps. */
  datatype Seat = Seat(isLeader: bool, tok: Option<TokenId>)

  /** The call an elector makes on a heartbeat, given the token id it would use for a new lock. */
  function Heartbeat(seat: Seat, tok: TokenId): Command {
    if seat.isLeader && seat.tok.Some? then Refresh(seat.tok.value) else Acquire(tok)
  }

  /** The fields after the reply to `cmd`; an error counts as a failure. */
  function Settle(seat: Seat, cmd: Command, ok: bool): Seat {
    match cmd
    case Acquire(tok) => if ok then Seat(true, Some(tok)) else Seat(false, seat.tok)
    case Refresh(_) => if ok then seat else Seat(false, None)
    case Release(_) => Seat(false, None)
  }

  // ---------------------------------------------------------------------------------------------
  // The cluster
  // ---------------------------------------------------------------------------------------------

  datatype Waiting = Waiting(id: CallId, cmd: Command, askedAt: int)

  /** `since` is when the elector sent its last successful acquire or refresh. */
  datatype Elector = Elector(seat: Seat, since: int, waiting: Option<Waiting>)

  datatype State = State(
    now: int,
    lock: Lock,
    electors: map<ElectorId, Elector>,
    calls: map<CallId, Command>,      // sent, not yet executed
    replies: map<CallId, bool>,       // executed
    nextCall: CallId,
    issued: set<TokenId>)

  datatype Step =
    | Tick(elapsed: nat)
    | Beat(e: ElectorId, tok: TokenId)
    | Resign(e: ElectorId)
    | Execute(id: CallId)
    | Answer(e: ElectorId)
    | GiveUp(e: ElectorId)

  const Newcomer := Elector(Seat(false, None), 0, None)

  function Init(now: int, electors: set<ElectorId>): State {
    State(now, Free, map e | e in electors :: Newcomer, map[], map[], 0, {})
  }

  predicate Enabled(s: State, step: Step) {
    match step
    case Tick(_) => true
    case Beat(e, tok) => e in s.electors && s.electors[e].waiting.None? && tok !in s.issued
    case Resign(e) => e in s.electors && s.electors[e].waiting.None?
    case Execute(id) => id in s.calls
    case Answer(e) => e in s.electors && s.electors[e].waiting.Some? && s.electors[e].waiting.value.id in s.replies
    case GiveUp(e) => e in s.electors && s.electors[e].waiting.Some?
  }

  function Send(s: State, e: ElectorId, cmd: Command): State
    requires e in s.electors
  {
    s.(electors := s.electors[e := s.electors[e].(waiting := Some(Waiting(s.nextCall, cmd, s.now)))],
       calls := s.calls[s.nextCall := cmd],
       nextCall := s.nextCall + 1)
  }

  function Settled(el: Elector, ok: bool): Elector
    requires el.waiting.Some?
  {
    var w := el.waiting.value;
    Elector(Settle(el.seat, w.cmd, ok), if ok then w.askedAt else el.since, None)
  }

  function Next(s: State, step: Step, ttl: int): State
    requires Enabled(s, step)
  {
    match step
    case Tick(d) => s.(now := s.now + d)
    case Beat(e, tok) => Send(s, e, Heartbeat(s.electors[e].seat, tok)).(issued := s.issued + {tok})
    case Resign(e) =>
      var seat := s.electors[e].seat;
      if seat.isLeader && seat.tok.Some? then Send(s, e, Release(seat.tok.value)) else s
    case Execute(id) =>
      var (lock, ok) := Execution(s.lock, s.now, ttl, s.calls[id]);
      s.(lock := lock, calls := s.calls - {id}, replies := s.replies[id := ok])
    case Answer(e) =>
      var el := s.electors[e];
      s.(electors := s.electors[e := Settled(el, s.replies[el.waiting.value.id])])
    case GiveUp(e) => s.(electors := s.electors[e := Settled(s.electors[e], false)])
  }

  predicate Legal(s: State, steps: seq<Step>, ttl: int)
    decreases |steps|
  {
    steps != [] ==> Enabled(s, steps[0]) && Legal(Next(s, steps[0], ttl), steps[1..], ttl)
  }

  function Run(s: State, steps: seq<Step>, ttl: int): State
    requires Legal(s, steps, ttl)
    decreases |steps|
  {
    if steps == [] then s else Run(Next(s, steps[0], ttl), steps[1..], ttl)
  }

  ghost predicate Reachable(s: State, ttl: int) {
    exists now, electors, steps :: Legal(Init(now, electors), steps, ttl) && s == Run(Init(now, electors), steps, ttl)
  }

  // ---------------------------------------------------------------------------------------------
  // The invariant
  // ---------------------------------------------------------------------------------------------

  predicate IsLeader(s: State, e: ElectorId) {
    e in s.electors && s.electors[e].seat.isLeader
  }

  /** The elector's token is the one under an unexpired lock key. */
  predicate HoldsLease(s: State, e: ElectorId) {
    e in s.electors && s.electors[e].seat.tok.Some? && HeldBy(s.lock, s.now, s.electors[e].seat.tok.value)
  }

  predicate Uses(el: Elector, tok: TokenId) {
    el.seat.tok == Some(tok) || (el.waiting.Some? && el.waiting.value.cmd.tok == tok)
  }

  predicate ElectorOk(s: State, el: Elector) {
    && el.seat.isLeader == el.seat.tok.Some?
    && (el.seat.tok.Some? ==> el.seat.tok.value in s.issued && el.since <= s.now)
    && (el.waiting.Some? ==> WaitingOk(s, el.seat, el.waiting.value))
  }

  predicate WaitingOk(s: State, seat: Seat, w: Waiting) {
    && w.cmd.tok in s.issued && w.askedAt <= s.now && w.id < s.nextCall
    && (w.id in s.calls ==> s.calls[w.id] == w.cmd)
    && (if w.cmd.Acquire? then seat.tok.None? else seat.tok == Some(w.cmd.tok))
  }

  predicate CallOk(s: State, id: CallId) {
    id < s.nextCall && (id in s.calls ==> id !in s.replies && s.calls[id].tok in s.issued)
  }

  /** A command in flight that names an elector's token is that elector's current call. */
  predicate CallOwned(s: State, el: Elector, id: CallId)
    requires id in s.calls
  {
    Uses(el, s.calls[id].tok) ==> el.waiting.Some? && el.waiting.value.id == id
  }

  ghost predicate Bookkept(s: State) {
    && (forall e :: e in s.electors ==> ElectorOk(s, s.electors[e]))
    && (forall id :: id in s.calls || id in s.replies ==> CallOk(s, id))
    && (forall e, id :: e in s.electors && id in s.calls ==> CallOwned(s, s.electors[e], id))
    && (s.lock.Held? ==> s.lock.tok in s.issued)
  }

  /** No token and no call serves two electors. */
  ghost predicate Apart(a: Elector, b: Elector) {
    && (forall tok :: Uses(a, tok) ==> !Uses(b, tok))
    && (a.waiting.Some? && b.waiting.Some? ==> a.waiting.value.id != b.waiting.value.id)
  }

  ghost predicate AllApart(s: State) {
    forall e, f :: e in s.electors && f in s.electors && e != f ==> Apart(s.electors[e], s.electors[f])
  }

  /** The key still carries a lease that was asked for at `askedAt`, unless that lease has run out. */
  predicate Backed(s: State, tok: TokenId, askedAt: int, ttl: int) {
    s.now < askedAt + ttl ==> s.lock.Held? && s.lock.tok == tok && askedAt + ttl <= s.lock.expiry
  }

  predicate Resigning(el: Elector) {
    el.waiting.Some? && el.waiting.value.cmd.Release?
  }

  /** The elector was told that its current call succeeded. */
  predicate Granted(s: State, el: Elector) {
    el.waiting.Some? && el.waiting.value.id in s.replies && s.replies[el.waiting.value.id]
  }

  predicate LeaseOk(s: State, el: Elector, ttl: int) {
    && (el.seat.isLeader && el.seat.tok.Some? && !Resigning(el) ==> Backed(s, el.seat.tok.value, el.since, ttl))
    && (Granted(s, el) && !Resigning(el) ==> Backed(s, el.waiting.value.cmd.tok, el.waiting.value.askedAt, ttl))
  }

  predicate LeasesOk(s: State, ttl: int) {
    forall e :: e in s.electors ==> LeaseOk(s, s.electors[e], ttl)
  }

  ghost predicate Inv(s: State, ttl: int) {
    Bookkept(s) && AllApart(s) && LeasesOk(s, ttl)
  }

  lemma BookkeepingStep(s: State, step: Step, ttl: int)
    requires Bookkept(s) && AllApart(s) && Enabled(s, step)
    ensures Bookkept(Next(s, step, ttl))
  {
    var t := Next(s, step, ttl);
    match step
    case Beat(e, tok) => SendBookkept(s, e, Heartbeat(s.electors[e].seat, tok), s.issued + {tok});
    case Resign(e) =>
      var seat := s.electors[e].seat;
      if seat.isLeader && seat.tok.Some? {
        SendBookkept(s, e, Release(seat.tok.value), s.issued);
      }
    case Execute(id) => assert t.electors == s.electors;
    case Answer(e) => SettleBookkept(s, e, s.replies[s.electors[e].waiting.value.id]);
    case GiveUp(e) => SettleBookkept(s, e, false);
    case Tick(_) =>
  }

  lemma SendBookkept(s: State, e: ElectorId, cmd: Command, issued: set<TokenId>)
    requires Bookkept(s) && AllApart(s) && e in s.electors && s.electors[e].waiting.None? && s.issued <= issued
    requires if cmd.Acquire? then s.electors[e].seat.tok.None? && cmd.tok in issued - s.issued
             else s.electors[e].seat.tok == Some(cmd.tok)
    ensures Bookkept(Send(s, e, cmd).(issued := issued))
  {
    var t := Send(s, e, cmd).(issued := issued);
    forall f | f in t.electors
      ensures ElectorOk(t, t.electors[f])
    {
      assert ElectorOk(s, s.electors[f]);
    }
    forall f, id | f in t.electors && id in t.calls
      ensures CallOwned(t, t.electors[f], id)
    {
      assert ElectorOk(s, s.electors[f]);
      if id != s.nextCall {
        assert CallOk(s, id) && CallOwned(s, s.electors[f], id);
        assert CallOwned(s, s.electors[e], id);
      } else if f != e {
        assert Apart(s.electors[f], s.electors[e]);
      }
    }
  }

  lemma SettleBookkept(s: State, e: ElectorId, ok: bool)
    requires Bookkept(s) && e in s.electors && s.electors[e].waiting.Some?
    requires ok ==> s.electors[e].waiting.value.id in s.replies
    ensures Bookkept(s.(electors := s.electors[e := Settled(s.electors[e], ok)]))
  {
    var el := s.electors[e];
    var t := s.(electors := s.electors[e := Settled(el, ok)]);
    assert ElectorOk(s, el);
    forall f, id | f in t.electors && id in t.calls
      ensures CallOwned(t, t.electors[f], id)
    {
      assert CallOk(s, id) && CallOwned(s, s.electors[f], id);
    }
  }

  lemma ApartStep(s: State, step: Step, ttl: int)
    requires Bookkept(s) && AllApart(s) && Enabled(s, step)
    ensures AllApart(Next(s, step, ttl))
  {
    var t := Next(s, step, ttl);
    forall e, f | e in t.electors && f in t.electors && e != f
      ensures Apart(t.electors[e], t.electors[f])
    {
      assert Apart(s.electors[e], s.electors[f]) && Apart(s.electors[f], s.electors[e]);
      assert ElectorOk(s, s.electors[e]) && ElectorOk(s, s.electors[f]);
    }
  }

  /** A command other than the elector's own never takes an unexpired lease away from it. */
  lemma OthersKeepBacking(s: State, id: CallId, ttl: int, tok: TokenId, askedAt: int)
    requires id in s.calls && askedAt <= s.now && Backed(s, tok, askedAt, ttl)
    requires s.calls[id].tok == tok ==> s.calls[id].Refresh?
    ensures Backed(Next(s, Execute(id), ttl), tok, askedAt, ttl)
  {
  }

  lemma LeaseExecute(s: State, id: CallId, ttl: int, e: ElectorId)
    requires Inv(s, ttl) && id in s.calls && e in s.electors
    ensures LeaseOk(Next(s, Execute(id), ttl), s.electors[e], ttl)
  {
    var el, t := s.electors[e], Next(s, Execute(id), ttl);
    assert ElectorOk(s, el) && CallOwned(s, el, id) && LeaseOk(s, el, ttl) && CallOk(s, id);
    if el.seat.isLeader && !Resigning(el) {
      OthersKeepBacking(s, id, ttl, el.seat.tok.value, el.since);
    }
    if Granted(t, el) && !Resigning(el) && el.waiting.value.id != id {
      OthersKeepBacking(s, id, ttl, el.waiting.value.cmd.tok, el.waiting.value.askedAt);
    }
  }

  lemma LeaseStep(s: State, step: Step, ttl: int)
    requires Inv(s, ttl) && Enabled(s, step)
    ensures LeasesOk(Next(s, step, ttl), ttl)
  {
    var t := Next(s, step, ttl);
    forall e | e in t.electors
      ensures LeaseOk(t, t.electors[e], ttl)
    {
      var el := s.electors[e];
      assert ElectorOk(s, el) && LeaseOk(s, el, ttl);
      if step.Execute? {
        LeaseExecute(s, step.id, ttl, e);
      } else if step.Beat? || step.Resign? {
        FreshCall(s);
      }
    }
  }

  lemma FreshCall(s: State)
    requires Bookkept(s)
    ensures s.nextCall !in s.replies && s.nextCall !in s.calls
  {
  }

  lemma {:induction false} RunInv(s: State, steps: seq<Step>, ttl: int)
    requires Inv(s, ttl) && Legal(s, steps, ttl)
    ensures Inv(Run(s, steps, ttl), ttl)
    decreases |steps|
  {
    if steps != [] {
      BookkeepingStep(s, steps[0], ttl);
      ApartStep(s, steps[0], ttl);
      LeaseStep(s, steps[0], ttl);
      RunInv(Next(s, steps[0], ttl), steps[1..], ttl);
    }
  }

  lemma ReachableInv(s: State, ttl: int)
    requires Reachable(s, ttl)
    ensures Inv(s, ttl)
  {
    var now, electors, steps :| Legal(Init(now, electors), steps, ttl) && s == Run(Init(now, electors), steps, ttl);
    RunInv(Init(now, electors), steps, ttl);
  }

  // ---------------------------------------------------------------------------------------------
  // Safety over whole runs
  // ---------------------------------------------------------------------------------------------

  /** At most one elector holds an unexpired lease. */
  lemma OneLeaseHolder(s: State, ttl: int, e: ElectorId, f: ElectorId)
    requires Reachable(s, ttl) && HoldsLease(s, e) && HoldsLease(s, f)
    ensures e == f
  {
    ReachableInv(s, ttl);
    if e != f {
      assert Apart(s.electors[e], s.electors[f]) && Uses(s.electors[e], s.lock.tok);
    }
  }

  /** The elector's last successful renewal was sent less than a lease ago. */
  predicate InTime(s: State, e: ElectorId, ttl: int) {
    e in s.electors && s.now < s.electors[e].since + ttl
  }

  /** A leader that renewed in time and is not resigning does hold the lease... */
  lemma TimelyLeaderHolds(s: State, ttl: int, e: ElectorId)
    requires Reachable(s, ttl) && IsLeader(s, e) && InTime(s, e, ttl) && !Resigning(s.electors[e])
    ensures HoldsLease(s, e)
  {
    ReachableInv(s, ttl);
    assert ElectorOk(s, s.electors[e]) && LeaseOk(s, s.electors[e], ttl);
  }

  /** ...so there is at most one of them. */
  lemma OneTimelyLeader(s: State, ttl: int, e: ElectorId, f: ElectorId)
    requires Reachable(s, ttl) && IsLeader(s, e) && IsLeader(s, f)
    requires InTime(s, e, ttl) && !Resigning(s.electors[e]) && InTime(s, f, ttl) && !Resigning(s.electors[f])
    ensures e == f
  {
    TimelyLeaderHolds(s, ttl, e);
    TimelyLeaderHolds(s, ttl, f);
    OneLeaseHolder(s, ttl, e, f);
  }

  /** Whatever the server executes, an elector whose own call it is not keeps the lease it holds. */
  lemma OthersNeverEvict(s: State, ttl: int, id: CallId, e: ElectorId)
    requires Reachable(s, ttl) && id in s.calls && HoldsLease(s, e) && ttl > 0
    requires s.electors[e].waiting.None? || s.electors[e].waiting.value.id != id
    ensures HoldsLease(Next(s, Execute(id), ttl), e)
  {
    ReachableInv(s, ttl);
    assert CallOwned(s, s.electors[e], id);
  }

  /** Leads without the lease, and nothing already on its way says otherwise. */
  predicate Deposed(s: State, e: ElectorId) {
    && IsLeader(s, e) && !HoldsLease(s, e)
    && !Granted(s, s.electors[e])
  }

  /** A deposed leader stays deposed, until the outcome of its next call makes it step down. */
  lemma DeposedStep(s: State, step: Step, ttl: int, e: ElectorId)
    requires Inv(s, ttl) && Enabled(s, step) && Deposed(s, e)
    ensures
      var t := Next(s, step, ttl);
      if step in {Answer(e), GiveUp(e)} then !IsLeader(t, e) else Deposed(t, e)
  {
    assert ElectorOk(s, s.electors[e]);
    if step.Execute? {
      assert CallOwned(s, s.electors[e], step.id);
    } else if step.Beat? || step.Resign? {
      FreshCall(s);
    }
  }

  /** Along any run, a deposed leader is not leading once the first outcome of a call of its own is in. */
  lemma DeposedStepsDown(s: State, steps: seq<Step>, ttl: int, e: ElectorId)
    requires Reachable(s, ttl) && Legal(s, steps, ttl) && Deposed(s, e)
    requires |steps| > 0 && steps[|steps| - 1] in {Answer(e), GiveUp(e)}
    requires forall i :: 0 <= i < |steps| - 1 ==> steps[i] !in {Answer(e), GiveUp(e)}
    ensures !IsLeader(Run(s, steps, ttl), e)
  {
    ReachableInv(s, ttl);
    DeposedRun(s, steps, ttl, e);
  }

  lemma {:induction false} DeposedRun(s: State, steps: seq<Step>, ttl: int, e: ElectorId)
    requires Inv(s, ttl) && Legal(s, steps, ttl) && Deposed(s, e)
    requires |steps| > 0 && steps[|steps| - 1] in {Answer(e), GiveUp(e)}
    requires forall i :: 0 <= i < |steps| - 1 ==> steps[i] !in {Answer(e), GiveUp(e)}
    ensures !IsLeader(Run(s, steps, ttl), e)
    decreases |steps|
  {
    DeposedStep(s, steps[0], ttl, e);
    var t, rest := Next(s, steps[0], ttl), steps[1..];
    assert Run(s, steps, ttl) == Run(t, rest, ttl);
    if rest != [] {
      BookkeepingStep(s, steps[0], ttl);
      ApartStep(s, steps[0], ttl);
      LeaseStep(s, steps[0], ttl);
      assert forall i :: 0 <= i < |rest| - 1 ==> rest[i] == steps[i + 1];
      DeposedRun(t, rest, ttl, e);
    }
  }

  predicate IsOutcome(step: Step, e: ElectorId) {
    step == Answer(e) || step == GiveUp(e)
  }

  function OutcomesOf(steps: seq<Step>, e: ElectorId): nat {
    if steps == [] then 0 else (if IsOutcome(steps[0], e) then 1 else 0) + OutcomesOf(steps[1..], e)
  }

  /** At some point of the run the elector does not lead. */
  predicate EverDown(s: State, steps: seq<Step>, ttl: int, e: ElectorId)
    requires Legal(s, steps, ttl)
    decreases |steps|
  {
    !IsLeader(s, e) || (steps != [] && EverDown(Next(s, steps[0], ttl), steps[1..], ttl, e))
  }

  /** A lease once lost does not come back; a reply granted before the loss leaves the elector deposed. */
  lemma LeaselessStep(s: State, step: Step, ttl: int, e: ElectorId)
    requires Inv(s, ttl) && Enabled(s, step) && IsLeader(s, e) && !HoldsLease(s, e)
    ensures
      var t := Next(s, step, ttl);
      if IsOutcome(step, e) then !IsLeader(t, e) || Deposed(t, e) else IsLeader(t, e) && !HoldsLease(t, e)
  {
    assert ElectorOk(s, s.electors[e]);
    if step.Execute? {
      assert CallOwned(s, s.electors[e], step.id);
    }
  }

  lemma {:induction false} LeaselessRun(s: State, steps: seq<Step>, ttl: int, e: ElectorId)
    requires Inv(s, ttl) && Legal(s, steps, ttl) && IsLeader(s, e) && !HoldsLease(s, e)
    requires OutcomesOf(steps, e) >= if Deposed(s, e) then 1 else 2
    ensures EverDown(s, steps, ttl, e)
    decreases |steps|
  {
    var t, rest := Next(s, steps[0], ttl), steps[1..];
    BookkeepingStep(s, steps[0], ttl);
    ApartStep(s, steps[0], ttl);
    LeaseStep(s, steps[0], ttl);
    LeaselessStep(s, steps[0], ttl, e);
    if Deposed(s, e) {
      DeposedStep(s, steps[0], ttl, e);
    }
    if IsLeader(t, e) {
      LeaselessRun(t, rest, ttl, e);
    }
  }

  /**
   Along any run, a leader without the lease stops leading by the second outcome of a call of its own at
   the latest: the first one may have been granted before the lease was lost.
   */
  lemma LeaselessStepsDown(s: State, steps: seq<Step>, ttl: int, e: ElectorId)
    requires Reachable(s, ttl) && Legal(s, steps, ttl) && IsLeader(s, e) && !HoldsLease(s, e)
    requires OutcomesOf(steps, e) >= 2
    ensures EverDown(s, steps, ttl, e)
  {
    ReachableInv(s, ttl);
    LeaselessRun(s, steps, ttl, e);
  }

  // ---------------------------------------------------------------------------------------------
  // Two leaders at once
  // ---------------------------------------------------------------------------------------------

  lemma {:induction false} RunSnoc(s: State, steps: seq<Step>, step: Step, ttl: int)
    requires Legal(s, steps, ttl) && Enabled(Run(s, steps, ttl), step)
    ensures Legal(s, steps + [step], ttl) && Run(s, steps + [step], ttl) == Next(Run(s, steps, ttl), step, ttl)
    decreases |steps|
  {
    if steps == [] {
      assert [step][1..] == [];
    } else {
      assert (steps + [step])[1..] == steps[1..] + [step];
      RunSnoc(Next(s, steps[0], ttl), steps[1..], step, ttl);
    }
  }

  lemma ReachStep(s: State, step: Step, ttl: int) returns (t: State)
    requires Reachable(s, ttl) && Enabled(s, step)
    ensures Reachable(t, ttl) && t == Next(s, step, ttl)
  {
    var now, electors, steps :| Legal(Init(now, electors), steps, ttl) && s == Run(Init(now, electors), steps, ttl);
    RunSnoc(Init(now, electors), steps, step, ttl);
    t := Next(s, step, ttl);
  }

  /** An idle elector that finds the key expired takes the lead. */
  lemma Elect(s: State, ttl: int, e: ElectorId, tok: TokenId) returns (t: State)
    requires Reachable(s, ttl) && e in s.electors && s.electors[e] == Newcomer && tok !in s.issued
    requires Expired(s.lock, s.now)
    ensures Reachable(t, ttl) && t.now == s.now && t.lock == Held(tok, s.now + ttl)
    ensures t.electors == s.electors[e := Elector(Seat(true, Some(tok)), s.now, None)]
    ensures t.issued == s.issued + {tok}
  {
    var u := ReachStep(s, Beat(e, tok), ttl);
    var v := ReachStep(u, Execute(s.nextCall), ttl);
    t := ReachStep(v, Answer(e), ttl);
  }

  /** Some further run leads from `s` to `t`. */
  ghost predicate Leads(s: State, t: State, ttl: int) {
    exists steps :: Legal(s, steps, ttl) && t == Run(s, steps, ttl)
  }

  lemma LeadsOn(s: State, t: State, step: Step, ttl: int) returns (u: State)
    requires Leads(s, t, ttl) && Enabled(t, step)
    ensures Leads(s, u, ttl) && u == Next(t, step, ttl)
  {
    var steps :| Legal(s, steps, ttl) && t == Run(s, steps, ttl);
    RunSnoc(s, steps, step, ttl);
    u := Next(t, step, ttl);
  }

  /** When the key is absent: now, or at its expiry. */
  function AbsentFrom(s: State): int {
    if Expired(s.lock, s.now) then s.now else s.lock.expiry
  }

  /**
   From every reachable state with a leader, another elector that is idle can come to lead as well, as soon
   as the key is absent: at once if the leader has lost its lease and nobody holds one.
   */
  lemma OverlapFollows(s: State, ttl: int, e: ElectorId, f: ElectorId) returns (t: State)
    requires Reachable(s, ttl) && IsLeader(s, e) && f in s.electors && !IsLeader(s, f) && s.electors[f].waiting.None?
    ensures Leads(s, t, ttl) && t.now == AbsentFrom(s) && IsLeader(t, e) && IsLeader(t, f)
  {
    var tok := Above(s.issued);
    var id := s.nextCall;
    ReachableInv(s, ttl);
    assert ElectorOk(s, s.electors[f]);
    assert Run(s, [], ttl) == s;
    t := LeadsOn(s, s, Tick(AbsentFrom(s) - s.now), ttl);
    t := LeadsOn(s, t, Beat(f, tok), ttl);
    t := LeadsOn(s, t, Execute(id), ttl);
    t := LeadsOn(s, t, Answer(f), ttl);
  }

  /** A leader that misses its renewal still reports itself leader when the next one is elected... */
  lemma LateRenewalOverlaps(ttl: nat) returns (s: State)
    ensures Reachable(s, ttl) && IsLeader(s, 0) && IsLeader(s, 1) && !InTime(s, 0, ttl)
  {
    s := Init(0, {0, 1});
    assert Run(s, [], ttl) == s;
    s := Elect(s, ttl, 0, 0);
    s := ReachStep(s, Tick(ttl), ttl);
    s := Elect(s, ttl, 1, 1);
  }

  /** ...and so does one whose release was executed but not yet answered. */
  lemma ResignationOverlaps(ttl: nat) returns (s: State)
    requires ttl > 0
    ensures Reachable(s, ttl) && IsLeader(s, 0) && IsLeader(s, 1) && InTime(s, 0, ttl) && InTime(s, 1, ttl)
  {
    s := Init(0, {0, 1});
    assert Run(s, [], ttl) == s;
    s := Elect(s, ttl, 0, 0);
    var id := s.nextCall;
    s := ReachStep(s, Resign(0), ttl);
    s := ReachStep(s, Execute(id), ttl);
    s := Elect(s, ttl, 1, 1);
  }

  /** Sent, executed and answered without delay, a heartbeat is the single call of the classes below. */
  lemma UninterruptedBeat(s: State, ttl: int, e: ElectorId, tok: TokenId)
    requires Reachable(s, ttl) && Enabled(s, Beat(e, tok))
    ensures
      var seat := s.electors[e].seat;
      var cmd := Heartbeat(seat, tok);
      var (lock, ok) := Execution(s.lock, s.now, ttl, cmd);
      var sent := Next(s, Beat(e, tok), ttl);
      var executed := Next(sent, Execute(s.nextCall), ttl);
      var t := Next(executed, Answer(e), ttl);
      && t.lock == lock && t.calls == s.calls
      && t.electors == s.electors[e := Elector(Settle(seat, cmd, ok), if ok then s.now else s.electors[e].since, None)]
  {
    ReachableInv(s, ttl);
    FreshCall(s);
    assert s.calls[s.nextCall := Heartbeat(s.electors[e].seat, tok)] - {s.nextCall} == s.calls;
  }

  // ---------------------------------------------------------------------------------------------
  // The locker and the elector, call by call
  // ---------------------------------------------------------------------------------------------

  /** How a call fares on the network; both losses reach the caller as an error. */
  datatype Net = Delivered | RequestLost | ReplyLost

  class RedisLocker {
    var lock: Lock

    constructor ()
      ensures lock == Free
    {
      lock := Free;
    }

    /** The set-if-absent and the two scripts, each atomic at the server. */
    method Perform(cmd: Command, now: int, ttl: int, net: Net) returns (ok: bool)
      modifies this
      ensures lock == if net == RequestLost then old(lock) else Execution(old(lock), now, ttl, cmd).0
      ensures ok == (net == Delivered && Execution(old(lock), now, ttl, cmd).1)
      ensures
        var live := old(lock).Held? && now < old(lock).expiry;
        var takes := net != RequestLost && if cmd.Acquire? then !live else live && old(lock).tok == cmd.tok;
        && lock == (if !takes then old(lock) else if cmd.Release? then Free else Held(cmd.tok, now + ttl))
        && ok == (takes && net == Delivered)
    {
      if net == RequestLost {
        return false;
      }
      var live := lock.Held? && now < lock.expiry;
      ok := false;
      match cmd {
        case Acquire(tok) =>
          if !live {
            lock := Held(tok, now + ttl);
            ok := true;
          }
        case Refresh(tok) =>
          if live && lock.tok == tok {
            lock := Held(lock.tok, now + ttl);
            ok := true;
          }
        case Release(tok) =>
          if live && lock.tok == tok {
            lock := Free;
            ok := true;
          }
      }
      ok := ok && net == Delivered;
    }
  }

  class LeaderElection {
    const locker: RedisLocker
    const leaseDuration: int
    var isLeader: bool
    var activeTok: Option<TokenId>

    constructor (locker: RedisLocker, leaseDuration: int)
      ensures this.locker == locker && !isLeader && activeTok == None
      ensures this.leaseDuration == if leaseDuration <= 0 then 15_000 else leaseDuration
    {
      this.locker := locker;
      this.leaseDuration := if leaseDuration <= 0 then 15_000 else leaseDuration;
      isLeader, activeTok := false, None;
    }

    function Fields(): Seat
      reads this
    {
      Seat(isLeader, activeTok)
    }

    method Beat(now: int, tok: TokenId, net: Net)
      modifies this, locker
      ensures
        var cmd := Heartbeat(old(Fields()), tok);
        var (lock, ok) := Execution(old(locker.lock), now, leaseDuration, cmd);
        && locker.lock == (if net == RequestLost then old(locker.lock) else lock)
        && Fields() == Settle(old(Fields()), cmd, net == Delivered && ok)
      ensures old(isLeader) && old(activeTok).Some? ==>
        var mine, key := old(activeTok).value, old(locker.lock);
        var held := key.Held? && key.tok == mine && now < key.expiry;
        && locker.lock == (if held && net != RequestLost then Held(mine, now + leaseDuration) else key)
        && (held && net == Delivered ==> isLeader && activeTok == Some(mine))
        && (!held || net != Delivered ==> !isLeader && activeTok == None)
      ensures !(old(isLeader) && old(activeTok).Some?) ==>
        var key := old(locker.lock);
        var absent := key.Free? || key.expiry <= now;
        && locker.lock == (if absent && net != RequestLost then Held(tok, now + leaseDuration) else key)
        && (absent && net == Delivered ==> isLeader && activeTok == Some(tok))
        && (!absent || net != Delivered ==> !isLeader && activeTok == old(activeTok))
    {
      if isLeader && activeTok.Some? {
        var ok := locker.Perform(Refresh(activeTok.value), now, leaseDuration, net);
        if !ok {
          isLeader := false;
          activeTok := None;
        }
        return;
      }
      var ok := locker.Perform(Acquire(tok), now, leaseDuration, net);
      if ok {
        isLeader := true;
        activeTok := Some(tok);
      } else {
        isLeader := false;
      }
    }

    /** The result is whether the call reports no error. */
    method Resign(now: int, net: Net) returns (ok: bool)
      modifies this, locker
      ensures
        if old(isLeader) && old(activeTok).Some? then
          var cmd := Release(old(activeTok).value);
          var (lock, done) := Execution(old(locker.lock), now, leaseDuration, cmd);
          && locker.lock == (if net == RequestLost then old(locker.lock) else lock)
          && Fields() == Settle(old(Fields()), cmd, ok) && ok == (net == Delivered && done)
        else ok && Fields() == old(Fields()) && locker.lock == old(locker.lock)
      ensures old(isLeader) && old(activeTok).Some? ==>
        var mine, key := old(activeTok).value, old(locker.lock);
        var held := key.Held? && key.tok == mine && now < key.expiry;
        && !isLeader && activeTok == None && ok == (held && net == Delivered)
        && locker.lock == (if held && net != RequestLost then Free else key)
    {
      if isLeader && activeTok.Some? {
        ok := locker.Perform(Release(activeTok.value), now, leaseDuration, net);
        isLeader := false;
        activeTok := None;
        return;
      }
      return true;
    }
  }
}
