/** The circuit breaker, first one whole call at a time, then one atomic operation at a time. */
module Breaker {
  import opened Sets

  const THRESHOLD := 3
  const COOLDOWN := 2_000_000_000    // nanoseconds

  type Int32 = x: int | -0x8000_0000 <= x < 0x8000_0000

  datatype Phase = Closed | Open | HalfOpen

  function Increment(x: Int32): Int32 {
    if x == 0x7fff_ffff then -0x8000_0000 else x + 1
  }

  datatype Fields = Fields(phase: Phase, failures: Int32, openedAt: int, probing: bool)

  const Fresh := Fields(Closed, 0, 0, false)

  // ---------------------------------------------------------------------------------------------
  // Call by call
  // ---------------------------------------------------------------------------------------------

  datatype Event = Ask(now: int) | Success | Failure(now: int)

  function Allowed(f: Fields, now: int): bool {
    f.phase.Closed? || (f.phase.Open? && now - f.openedAt >= COOLDOWN && !f.probing)
  }

  function Next(f: Fields, e: Event): Fields {
    match e
    case Ask(now) => if Allowed(f, now) && f.phase.Open? then f.(phase := HalfOpen, probing := true) else f
    case Success => Fields(Closed, 0, f.openedAt, false)
    case Failure(now) =>
      var n := Increment(f.failures);
      if n >= THRESHOLD && f.phase.Closed? then f.(phase := Open, failures := n, openedAt := now)
      else f.(failures := n)
  }

  function Run(f: Fields, es: seq<Event>): Fields {
    if es == [] then f else Next(Run(f, es[..|es| - 1]), es[|es| - 1])
  }

  /** The events after the last success. */
  function SinceSuccess(es: seq<Event>): seq<Event> {
    if es == [] || es[|es| - 1].Success? then [] else SinceSuccess(es[..|es| - 1]) + [es[|es| - 1]]
  }

  function Failures(es: seq<Event>): seq<int> {
    if es == [] then []
    else Failures(es[..|es| - 1]) + if es[|es| - 1].Failure? then [es[|es| - 1].now] else []
  }

  /** What the fields say when `fails` are the times of the failures since the last success. */
  predicate Means(f: Fields, fails: seq<int>) {
    && (f.phase.Closed? <==> |fails| < 3)
    && (f.phase.Closed? ==> f.failures == |fails|)
    && (!f.phase.Closed? ==> f.openedAt == fails[2])
    && (f.phase.HalfOpen? <==> f.probing)
  }

  /**
   Whatever calls came before: the breaker is closed exactly while fewer than three failures were recorded
   since the last success, its cooldown runs from the third, and a probe is marked exactly in half-open.
   */
  lemma {:induction false} PhaseMeaning(es: seq<Event>)
    ensures Means(Run(Fresh, es), Failures(SinceSuccess(es)))
  {
    if es != [] {
      var init, last := es[..|es| - 1], es[|es| - 1];
      PhaseMeaning(init);
      MeansStep(Run(Fresh, init), Failures(SinceSuccess(init)), last);
      if !last.Success? {
        assert SinceSuccess(es)[..|SinceSuccess(es)| - 1] == SinceSuccess(init);
      }
    }
  }

  lemma MeansStep(f: Fields, fails: seq<int>, e: Event)
    requires Means(f, fails)
    ensures Means(Next(f, e), if e.Success? then [] else if e.Failure? then fails + [e.now] else fails + [])
  {
    assert fails + [] == fails;
  }

  function Admissions(f: Fields, es: seq<Event>): nat {
    if es == [] then 0
    else
      var init, last := es[..|es| - 1], es[|es| - 1];
      Admissions(f, init) + if last.Ask? && Allowed(Run(f, init), last.now) then 1 else 0
  }

  predicate Ripe(f: Fields, e: Event) {
    e.Ask? && e.now >= f.openedAt + 2_000_000_000
  }

  ghost predicate AnyRipe(f: Fields, es: seq<Event>) {
    exists e :: e in es && Ripe(f, e)
  }

  /**
   From the moment the breaker opens until the next success, exactly one request is let through if any is
   made once the cooldown is over, and none otherwise, however many failures are recorded meanwhile.
   */
  lemma {:induction false} OneProbePerOpening(f: Fields, es: seq<Event>)
    requires f.phase.Open? && !f.probing
    requires forall e :: e in es ==> !e.Success?
    ensures Admissions(f, es) == if AnyRipe(f, es) then 1 else 0
    ensures Run(f, es).openedAt == f.openedAt
    ensures Run(f, es).phase == if AnyRipe(f, es) then HalfOpen else Open
    ensures Run(f, es).probing == Run(f, es).phase.HalfOpen?
  {
    if es != [] {
      var init, last := es[..|es| - 1], es[|es| - 1];
      assert es == init + [last];
      assert AnyRipe(f, es) <==> AnyRipe(f, init) || Ripe(f, last);
      OneProbePerOpening(f, init);
    }
  }

  /** From half-open nothing is let through until the next success, whatever else is recorded. */
  lemma {:induction false} HalfOpenWaits(f: Fields, es: seq<Event>)
    requires f.phase.HalfOpen? && forall e :: e in es ==> !e.Success?
    ensures Admissions(f, es) == 0 && Run(f, es).phase.HalfOpen?
  {
    if es != [] {
      HalfOpenWaits(f, es[..|es| - 1]);
    }
  }

  class CircuitBreaker {
    var phase: Phase
    var failures: Int32
    var openedAt: int
    var probing: bool

    constructor ()
      ensures Value() == Fresh
    {
      phase, failures, openedAt, probing := Closed, 0, 0, false;
    }

    function Value(): Fields
      reads this
    {
      Fields(phase, failures, openedAt, probing)
    }

    method Allow(now: int) returns (ok: bool)
      modifies this
      ensures ok == Allowed(old(Value()), now) && Value() == Next(old(Value()), Ask(now))
    {
      match phase {
        case Closed => return true;
        case Open =>
          if now - openedAt < COOLDOWN {
            return false;
          }
          if !probing {
            probing := true;
            phase := HalfOpen;
            return true;
          }
          return false;
        case HalfOpen => return false;
      }
    }

    /** `tripped` is whether the observability hook is told of a change of state. */
    method RecordSuccess() returns (tripped: bool)
      modifies this
      ensures Value() == Next(old(Value()), Success) && tripped == !old(phase).Closed?
    {
      failures := 0;
      probing := false;
      tripped := !phase.Closed?;
      phase := Closed;
    }

    method RecordFailure(now: int) returns (tripped: bool)
      modifies this
      ensures Value() == Next(old(Value()), Failure(now)) && tripped == (old(phase).Closed? && phase.Open?)
    {
      failures := Increment(failures);
      tripped := failures >= THRESHOLD && phase.Closed?;
      if tripped {
        phase := Open;
        openedAt := now;
      }
    }
  }

  // ---------------------------------------------------------------------------------------------
  // One atomic operation at a time
  // ---------------------------------------------------------------------------------------------

  type ThreadId = nat

  /** A loaded opening time, the opening whose stamp it is, and the latest opening when it was loaded. */
  datatype Load = Load(time: int, tag: nat, latest: nat)

  /**
   Where a thread stands: the operation it performs next.  Reading the clock is an operation of its own.
   What the operations look at is what the code holds in local variables there, that is, the loaded time
   and the time to store; the rest is history.
   */
  datatype Pc =
    // Allow
    | LoadPhase
    | LoadOpenedAt
    | CheckCooldown(load: Load)
    | SwapProbing(load: Load)
    | StoreHalfOpen(load: Load, epoch: nat)    // elected when `epoch` resets had been made
    // RecordSuccess
    | StoreFailures
    | ClearProbing
    | StoreClosed
    // RecordFailure
    | AddFailure
    | SwapOpen
    | ReadClock(opening: nat)
    | StoreOpenedAt(stamp: int, opening: nat)

  /** An elected request going through: when, on which loaded time, and the latest opening at that moment. */
  datatype Pass = Pass(at: int, load: Load, opening: nat, openedWhen: int, inForce: bool)

  /** What has happened; no operation looks at it.  Openings are numbered from 1 in the order of their swaps. */
  datatype History = History(
    opening: nat,             // the latest opening
    openedWhen: int,          // when it was made
    inForce: bool,            // no store of closed since
    stamps: map<nat, int>,    // the clock reading of each opening that has made it
    writer: nat,              // the opening whose stamp `openedAt` holds; 0 is the initial value
    allowed: seq<int>,        // when requests were let through, latest last
    passes: seq<Pass>,        // those of them that were elected
    elections: nat,           // successful swaps of `probing`
    clears: nat,              // stores of false that found `probing` set
    resets: nat,              // all stores of false
    lastEpoch: nat,           // resets before the latest election
    halfEpoch: nat,           // resets before the election that made the state half-open
    halfResets: nat)          // resets before its store of half-open

  datatype Atomics = Atomics(shared: Fields, threads: map<ThreadId, Pc>, now: int, past: History)

  function Quiet(now: int): Atomics {
    Atomics(Fresh, map[], now, History(0, now, false, map[], 0, [], [], 0, 0, 0, 0, 0, 0))
  }

  datatype Micro = Begin(t: ThreadId, pc: Pc) | Tick(elapsed: nat) | Do(t: ThreadId)

  predicate CanDo(a: Atomics, m: Micro) {
    match m
    case Begin(t, pc) => t !in a.threads && (pc.LoadPhase? || pc.StoreFailures? || pc.AddFailure?)
    case Tick(_) => true
    case Do(t) => t in a.threads
  }

  function Goto(a: Atomics, t: ThreadId, pc: Pc): Atomics {
    a.(threads := a.threads[t := pc])
  }

  function Return(a: Atomics, t: ThreadId): Atomics {
    a.(threads := a.threads - {t})
  }

  function Effect(a: Atomics, m: Micro): Atomics
    requires CanDo(a, m)
  {
    match m
    case Begin(t, pc) => Goto(a, t, pc)
    case Tick(d) => a.(now := a.now + d)
    case Do(t) => Operation(a, t)
  }

  /** The thread performs its operation and moves on. */
  function Operation(a: Atomics, t: ThreadId): Atomics
    requires t in a.threads
  {
    var f, h := a.shared, a.past;
    match a.threads[t]
    case LoadPhase =>
      if f.phase.Closed? then Return(a, t).(past := h.(allowed := h.allowed + [a.now]))
      else if f.phase.Open? then Goto(a, t, LoadOpenedAt)
      else Return(a, t)
    case LoadOpenedAt => Goto(a, t, CheckCooldown(Load(f.openedAt, h.writer, h.opening)))
    case CheckCooldown(load) =>
      if a.now - load.time < COOLDOWN then Return(a, t) else Goto(a, t, SwapProbing(load))
    case SwapProbing(load) =>
      if f.probing then Return(a, t)
      else
        Goto(a, t, StoreHalfOpen(load, h.resets)).(
          shared := f.(probing := true), past := h.(elections := h.elections + 1, lastEpoch := h.resets))
    case StoreHalfOpen(load, epoch) =>
      var pass := Pass(a.now, load, h.opening, h.openedWhen, h.inForce);
      Return(a, t).(
        shared := f.(phase := HalfOpen),
        past := h.(allowed := h.allowed + [a.now], passes := h.passes + [pass],
                   halfEpoch := epoch, halfResets := h.resets))
    case StoreFailures => Goto(a, t, ClearProbing).(shared := f.(failures := 0))
    case ClearProbing =>
      Goto(a, t, StoreClosed).(
        shared := f.(probing := false),
        past := h.(clears := h.clears + (if f.probing then 1 else 0), resets := h.resets + 1))
    case StoreClosed => Return(a, t).(shared := f.(phase := Closed), past := h.(inForce := false))
    case AddFailure =>
      var n := Increment(f.failures);
      (if n >= THRESHOLD then Goto(a, t, SwapOpen) else Return(a, t)).(shared := f.(failures := n))
    case SwapOpen =>
      if f.phase.Closed? then
        Goto(a, t, ReadClock(h.opening + 1)).(
          shared := f.(phase := Open), past := h.(opening := h.opening + 1, openedWhen := a.now, inForce := true))
      else Return(a, t)
    case ReadClock(k) => Goto(a, t, StoreOpenedAt(a.now, k)).(past := h.(stamps := h.stamps[k := a.now]))
    case StoreOpenedAt(stamp, k) => Return(a, t).(shared := f.(openedAt := stamp), past := h.(writer := k))
  }

  predicate CanRun(a: Atomics, ms: seq<Micro>)
    decreases |ms|
  {
    ms != [] ==> CanDo(a, ms[0]) && CanRun(Effect(a, ms[0]), ms[1..])
  }

  function Interleaving(a: Atomics, ms: seq<Micro>): Atomics
    requires CanRun(a, ms)
    decreases |ms|
  {
    if ms == [] then a else Interleaving(Effect(a, ms[0]), ms[1..])
  }

  ghost predicate Reachable(a: Atomics) {
    exists now, ms :: CanRun(Quiet(now), ms) && a == Interleaving(Quiet(now), ms)
  }

  // ---------------------------------------------------------------------------------------------
  // A call nothing interrupts
  // ---------------------------------------------------------------------------------------------

  /** Thread `t` runs on alone, for at most `n` operations. */
  function Alone(a: Atomics, t: ThreadId, n: nat): Atomics
    decreases n
  {
    if n == 0 || t !in a.threads then a else Alone(Operation(a, t), t, n - 1)
  }

  function FirstOperation(e: Event): Pc {
    match e
    case Ask(_) => LoadPhase
    case Success => StoreFailures
    case Failure(_) => AddFailure
  }

  /** The whole call of an event by a new thread. */
  function Call(a: Atomics, t: ThreadId, e: Event): Atomics {
    Alone(Goto(a, t, FirstOperation(e)), t, 5)
  }

  lemma AloneStep(a: Atomics, t: ThreadId, n: nat)
    requires n > 0 && t in a.threads
    ensures Alone(a, t, n) == Alone(Operation(a, t), t, n - 1)
  {}

  lemma GotoReturn(a: Atomics, t: ThreadId, pc: Pc, pc': Pc)
    requires t !in a.threads
    ensures Return(Goto(a, t, pc), t) == a && Goto(Goto(a, t, pc), t, pc') == Goto(a, t, pc')
  {
    assert a.threads[t := pc] - {t} == a.threads;
    assert a.threads[t := pc][t := pc'] == a.threads[t := pc'];
  }

  /** A call whose operations nothing interrupts does what the call-by-call model says, and is finished. */
  lemma UninterruptedCall(a: Atomics, t: ThreadId, e: Event)
    requires t !in a.threads && (!e.Success? ==> e.now == a.now)
    ensures
      var b := Call(a, t, e);
      && b.shared == Next(a.shared, e) && b.threads == a.threads && b.now == a.now
      && b.past.allowed == a.past.allowed + if e.Ask? && Allowed(a.shared, a.now) then [a.now] else []
  {
    match e
    case Ask(_) => UninterruptedAsk(a, t);
    case Success => UninterruptedSuccess(a, t);
    case Failure(_) => UninterruptedFailure(a, t);
  }

  /** The pass of a request that makes its whole call now. */
  function PassNow(a: Atomics): Pass {
    var h := a.past;
    Pass(a.now, Load(a.shared.openedAt, h.writer, h.opening), h.opening, h.openedWhen, h.inForce)
  }

  /** The passes after a request made its whole call. */
  function PassesThen(a: Atomics): seq<Pass> {
    a.past.passes + if a.shared.phase.Open? && Allowed(a.shared, a.now) then [PassNow(a)] else []
  }

  lemma UninterruptedAsk(a: Atomics, t: ThreadId)
    requires t !in a.threads
    ensures
      var b := Call(a, t, Ask(a.now));
      && b.shared == Next(a.shared, Ask(a.now)) && b.threads == a.threads && b.now == a.now
      && b.past.allowed == a.past.allowed + (if Allowed(a.shared, a.now) then [a.now] else [])
      && b.past.passes == PassesThen(a)
  {
    var b := Goto(a, t, LoadPhase);
    GotoReturn(a, t, LoadPhase, LoadOpenedAt);
    AloneStep(b, t, 5);
    if a.shared.phase.Open? {
      UninterruptedElection(a, t);
    }
  }

  lemma UninterruptedElection(a: Atomics, t: ThreadId)
    requires t !in a.threads && a.shared.phase.Open?
    ensures
      var b := Alone(Goto(a, t, LoadOpenedAt), t, 4);
      && b.shared == Next(a.shared, Ask(a.now)) && b.threads == a.threads && b.now == a.now
      && b.past.allowed == a.past.allowed + (if Allowed(a.shared, a.now) then [a.now] else [])
      && b.past.passes == PassesThen(a)
  {
    var load := Load(a.shared.openedAt, a.past.writer, a.past.opening);
    GotoReturn(a, t, LoadOpenedAt, CheckCooldown(load));
    AloneStep(Goto(a, t, LoadOpenedAt), t, 4);
    GotoReturn(a, t, CheckCooldown(load), SwapProbing(load));
    AloneStep(Goto(a, t, CheckCooldown(load)), t, 3);
    if a.now - load.time >= COOLDOWN {
      UninterruptedSwap(a, t, load);
    }
  }

  lemma UninterruptedSwap(a: Atomics, t: ThreadId, load: Load)
    requires t !in a.threads
    ensures
      var b := Alone(Goto(a, t, SwapProbing(load)), t, 2);
      if a.shared.probing then b == a
      else
        && b.shared == a.shared.(phase := HalfOpen, probing := true) && b.threads == a.threads && b.now == a.now
        && b.past.allowed == a.past.allowed + [a.now]
        && b.past.passes == a.past.passes + [Pass(a.now, load, a.past.opening, a.past.openedWhen, a.past.inForce)]
  {
    var b := Goto(a, t, SwapProbing(load));
    var pc := StoreHalfOpen(load, a.past.resets);
    GotoReturn(a, t, SwapProbing(load), pc);
    AloneStep(b, t, 2);
    if !a.shared.probing {
      GotoReturn(a, t, pc, pc);
      AloneStep(Operation(b, t), t, 1);
    }
  }

  lemma UninterruptedSuccess(a: Atomics, t: ThreadId)
    requires t !in a.threads
    ensures
      var b := Call(a, t, Success);
      && b.shared == Next(a.shared, Success) && b.threads == a.threads && b.now == a.now
      && b.past.allowed == a.past.allowed && b.past.passes == a.past.passes && b.past.opening == a.past.opening
  {
    var b := Goto(a, t, StoreFailures);
    GotoReturn(a, t, StoreFailures, ClearProbing);
    GotoReturn(a, t, ClearProbing, StoreClosed);
    GotoReturn(a, t, StoreClosed, StoreClosed);
    AloneStep(b, t, 5);
    AloneStep(Operation(b, t), t, 4);
    AloneStep(Operation(Operation(b, t), t), t, 3);
  }

  lemma UninterruptedFailure(a: Atomics, t: ThreadId)
    requires t !in a.threads
    ensures
      var b := Call(a, t, Failure(a.now));
      && b.shared == Next(a.shared, Failure(a.now)) && b.threads == a.threads && b.now == a.now
      && b.past.allowed == a.past.allowed && b.past.passes == a.past.passes
      && (Increment(a.shared.failures) < THRESHOLD ==> b.past == a.past)
  {
    var b := Goto(a, t, AddFailure);
    GotoReturn(a, t, AddFailure, SwapOpen);
    AloneStep(b, t, 5);
    var n := Increment(a.shared.failures);
    if n >= THRESHOLD {
      UninterruptedOpening(a.(shared := a.shared.(failures := n)), t);
    }
  }

  lemma UninterruptedOpening(a: Atomics, t: ThreadId)
    requires t !in a.threads
    ensures
      var b := Alone(Goto(a, t, SwapOpen), t, 4);
      && b.shared == (if a.shared.phase.Closed? then a.shared.(phase := Open, openedAt := a.now) else a.shared)
      && b.threads == a.threads && b.now == a.now
      && b.past.allowed == a.past.allowed && b.past.passes == a.past.passes
  {
    var b, k := Goto(a, t, SwapOpen), a.past.opening + 1;
    GotoReturn(a, t, SwapOpen, ReadClock(k));
    AloneStep(b, t, 4);
    if a.shared.phase.Closed? {
      var c := Operation(b, t);
      GotoReturn(a, t, ReadClock(k), StoreOpenedAt(a.now, k));
      AloneStep(c, t, 3);
      var d := Operation(c, t);
      GotoReturn(a, t, StoreOpenedAt(a.now, k), LoadPhase);
      AloneStep(d, t, 2);
    }
  }

  // ---------------------------------------------------------------------------------------------
  // What every interleaving keeps
  // ---------------------------------------------------------------------------------------------

  /** Elections and effective resets alternate, so elections exceed the resets by at most one. */
  predicate Alternating(a: Atomics) {
    a.past.elections == a.past.clears + (if a.shared.probing then 1 else 0) && a.past.clears <= a.past.resets
  }

  /** The loaded time is the stamp of opening `tag`, or the initial value. */
  predicate IsStamp(a: Atomics, loaded: int, tag: nat) {
    tag <= a.past.opening && (tag > 0 ==> tag in a.past.stamps && a.past.stamps[tag] == loaded)
  }

  predicate LoadOk(a: Atomics, load: Load) {
    IsStamp(a, load.time, load.tag) && load.tag <= load.latest <= a.past.opening
  }

  predicate ThreadOk(a: Atomics, pc: Pc) {
    match pc
    case CheckCooldown(load) => LoadOk(a, load)
    case SwapProbing(load) => LoadOk(a, load) && load.time + COOLDOWN <= a.now
    case StoreHalfOpen(load, epoch) =>
      && LoadOk(a, load) && load.time + COOLDOWN <= a.now
      && a.past.elections > 0 && epoch <= a.past.lastEpoch
    case ReadClock(k) => 0 < k <= a.past.opening && k !in a.past.stamps
    case StoreOpenedAt(stamp, k) => 0 < k && IsStamp(a, stamp, k)
    case _ => true
  }

  ghost predicate ThreadsOk(a: Atomics) {
    forall t :: t in a.threads ==> ThreadOk(a, a.threads[t])
  }

  /** Each opening is stamped by the thread that made it. */
  ghost predicate OpenersApart(a: Atomics) {
    forall t, u :: t in a.threads && u in a.threads && t != u && a.threads[t].ReadClock? && a.threads[u].ReadClock? ==>
      a.threads[t].opening != a.threads[u].opening
  }

  ghost predicate StampsOk(a: Atomics) {
    var h := a.past;
    && IsStamp(a, a.shared.openedAt, h.writer)
    && (forall k :: k in h.stamps ==> 0 < k <= h.opening)
    && h.openedWhen <= a.now && (h.opening in h.stamps ==> h.openedWhen <= h.stamps[h.opening])
    && (h.inForce ==> h.opening > 0)
  }

  /** A request passes a cooldown after the time it loaded, and the latest opening's own stamp is not before it. */
  predicate PassOk(p: Pass) {
    && p.load.time + COOLDOWN <= p.at
    && p.load.tag <= p.load.latest <= p.opening && (p.inForce ==> p.opening > 0)
    && (0 < p.load.tag == p.opening ==> p.openedWhen <= p.load.time)
  }

  ghost predicate PassesOk(a: Atomics) {
    forall p :: p in a.past.passes ==> PassOk(p)
  }

  predicate AnyClosing(a: Atomics) {
    exists t :: t in a.threads && a.threads[t].StoreClosed?
  }

  /** The mark is there exactly when no reset came after the latest election. */
  predicate MarksOk(a: Atomics) {
    var h := a.past;
    && h.lastEpoch <= h.resets
    && (a.shared.probing <==> h.elections > 0 && h.lastEpoch == h.resets)
    && (a.shared.phase.HalfOpen? ==>
          && h.elections > 0 && h.halfEpoch <= h.lastEpoch && h.halfEpoch <= h.halfResets <= h.resets
          && (h.halfEpoch == h.halfResets < h.resets ==> AnyClosing(a)))
  }

  ghost predicate Inv(a: Atomics) {
    Alternating(a) && ThreadsOk(a) && OpenersApart(a) && StampsOk(a) && PassesOk(a) && MarksOk(a)
  }

  lemma StampsStep(a: Atomics, m: Micro)
    requires ThreadsOk(a) && StampsOk(a) && CanDo(a, m)
    ensures StampsOk(Effect(a, m))
  {
    if m.Do? {
      assert ThreadOk(a, a.threads[m.t]);
    }
  }

  /** What a thread knows stays true while others move. */
  lemma ThreadKept(a: Atomics, m: Micro, pc: Pc)
    requires StampsOk(a) && MarksOk(a) && CanDo(a, m) && ThreadOk(a, pc)
    requires m.Do? && a.threads[m.t].ReadClock? ==> !(pc.ReadClock? && pc.opening == a.threads[m.t].opening)
    requires m.Do? ==> ThreadOk(a, a.threads[m.t])
    ensures ThreadOk(Effect(a, m), pc)
  {}

  /** Where a thread arrives, what it needs is true. */
  lemma ThreadMoves(a: Atomics, t: ThreadId)
    requires StampsOk(a) && MarksOk(a) && t in a.threads && ThreadOk(a, a.threads[t])
    ensures t in Operation(a, t).threads ==> ThreadOk(Operation(a, t), Operation(a, t).threads[t])
  {}

  lemma ThreadsStep(a: Atomics, m: Micro)
    requires Inv(a) && CanDo(a, m)
    ensures ThreadsOk(Effect(a, m))
  {
    var b := Effect(a, m);
    forall t | t in b.threads
      ensures ThreadOk(b, b.threads[t])
    {
      if m == Do(t) {
        ThreadMoves(a, t);
      } else if t in a.threads {
        assert b.threads[t] == a.threads[t];
        ThreadKept(a, m, a.threads[t]);
      }
    }
  }

  lemma OpenersStep(a: Atomics, m: Micro)
    requires ThreadsOk(a) && OpenersApart(a) && CanDo(a, m)
    ensures OpenersApart(Effect(a, m))
  {
    var b := Effect(a, m);
    forall t, u | t in b.threads && u in b.threads && t != u && b.threads[t].ReadClock? && b.threads[u].ReadClock?
      ensures b.threads[t].opening != b.threads[u].opening
    {
      if m != Do(t) && t in a.threads {
        assert b.threads[t] == a.threads[t] && ThreadOk(a, a.threads[t]);
      }
      if m != Do(u) && u in a.threads {
        assert b.threads[u] == a.threads[u] && ThreadOk(a, a.threads[u]);
      }
    }
  }

  lemma PassesStep(a: Atomics, m: Micro)
    requires ThreadsOk(a) && StampsOk(a) && PassesOk(a) && CanDo(a, m)
    ensures PassesOk(Effect(a, m))
  {
    if m.Do? {
      assert ThreadOk(a, a.threads[m.t]);
    }
  }

  lemma MarksStep(a: Atomics, m: Micro)
    requires ThreadsOk(a) && MarksOk(a) && CanDo(a, m)
    ensures MarksOk(Effect(a, m))
  {
    var b := Effect(a, m);
    if m.Do? {
      assert ThreadOk(a, a.threads[m.t]);
      if a.threads[m.t].ClearProbing? {
        assert b.threads[m.t].StoreClosed?;
      }
    }
    if AnyClosing(a) {
      var t :| t in a.threads && a.threads[t].StoreClosed?;
      assert m == Do(t) || (t in b.threads && b.threads[t].StoreClosed?);
    }
  }

  lemma AlternatingStep(a: Atomics, m: Micro)
    requires Alternating(a) && CanDo(a, m)
    ensures Alternating(Effect(a, m))
  {}

  lemma InvStep(a: Atomics, m: Micro)
    requires Inv(a) && CanDo(a, m)
    ensures Inv(Effect(a, m))
  {
    AlternatingStep(a, m);
    StampsStep(a, m);
    ThreadsStep(a, m);
    OpenersStep(a, m);
    PassesStep(a, m);
    MarksStep(a, m);
  }

  lemma {:induction false} RunInv(a: Atomics, ms: seq<Micro>)
    requires Inv(a) && CanRun(a, ms)
    ensures Inv(Interleaving(a, ms))
    decreases |ms|
  {
    if ms != [] {
      InvStep(a, ms[0]);
      RunInv(Effect(a, ms[0]), ms[1..]);
    }
  }

  lemma ReachableInv(a: Atomics)
    requires Reachable(a)
    ensures Inv(a)
  {
    var now, ms :| CanRun(Quiet(now), ms) && a == Interleaving(Quiet(now), ms);
    RunInv(Quiet(now), ms);
  }

  /** In every interleaving of any number of threads' atomic operations. */
  lemma ElectionsBounded(a: Atomics)
    requires Reachable(a)
    ensures a.past.elections <= a.past.resets + 1
  {
    ReachableInv(a);
  }

  // ---------------------------------------------------------------------------------------------
  // The cooldown under interleaving
  // ---------------------------------------------------------------------------------------------

  /** The request went through within the cooldown of the opening in force. */
  predicate Early(p: Pass) {
    p.inForce && p.at < p.openedWhen + COOLDOWN
  }

  /** The breaker was opened anew between the request's load and its going through. */
  predicate Reopened(p: Pass) {
    p.load.latest != p.opening
  }

  /** At the load, `openedAt` held another value than the stamp of the latest opening. */
  predicate LoadedOther(p: Pass) {
    p.load.tag != p.load.latest
  }

  /**
   In every interleaving, a request that goes through early loaded a time from before the opening in force:
   the breaker was opened anew since the load, or at the load the stamp had not been stored or was
   overwritten.  On that opening's own stamp a request goes through a cooldown after it at the soonest.
   */
  lemma EarlyLoadedOlder(a: Atomics, p: Pass)
    requires Reachable(a) && p in a.past.passes
    ensures Early(p) ==> p.load.time < p.openedWhen && (Reopened(p) || LoadedOther(p))
    ensures p.inForce && !Reopened(p) && !LoadedOther(p) ==> p.at - p.openedWhen >= p.at - p.load.time >= COOLDOWN
  {
    ReachableInv(a);
    assert PassOk(p);
  }

  /** Some further interleaving leads from `a` to `b`. */
  ghost predicate Leads(a: Atomics, b: Atomics) {
    exists ms :: CanRun(a, ms) && b == Interleaving(a, ms)
  }

  lemma {:induction false} RunSnoc(a: Atomics, ms: seq<Micro>, m: Micro)
    requires CanRun(a, ms) && CanDo(Interleaving(a, ms), m)
    ensures CanRun(a, ms + [m]) && Interleaving(a, ms + [m]) == Effect(Interleaving(a, ms), m)
    decreases |ms|
  {
    if ms == [] {
      assert [m][1..] == [];
    } else {
      assert (ms + [m])[1..] == ms[1..] + [m];
      RunSnoc(Effect(a, ms[0]), ms[1..], m);
    }
  }

  lemma LeadsSelf(a: Atomics)
    ensures Leads(a, a)
  {
    assert Interleaving(a, []) == a;
  }

  lemma LeadsOn(a: Atomics, b: Atomics, m: Micro) returns (c: Atomics)
    requires Leads(a, b) && CanDo(b, m)
    ensures Leads(a, c) && c == Effect(b, m)
  {
    var ms :| CanRun(a, ms) && b == Interleaving(a, ms);
    RunSnoc(a, ms, m);
    c := Effect(b, m);
  }

  lemma {:induction false} AloneLeads(a: Atomics, b: Atomics, t: ThreadId, n: nat)
    requires Leads(a, b)
    ensures Leads(a, Alone(b, t, n))
    decreases n
  {
    if n > 0 && t in b.threads {
      var c := LeadsOn(a, b, Do(t));
      AloneLeads(a, c, t, n - 1);
    }
  }

  lemma CallLeads(a: Atomics, b: Atomics, t: ThreadId, e: Event) returns (c: Atomics)
    requires Leads(a, b) && t !in b.threads && (!e.Success? ==> e.now == b.now)
    ensures Leads(a, c) && c == Call(b, t, e)
    ensures c.shared == Next(b.shared, e) && c.threads == b.threads && c.now == b.now
  {
    var begun := LeadsOn(a, b, Begin(t, FirstOperation(e)));
    AloneLeads(a, begun, t, 5);
    UninterruptedCall(b, t, e);
    c := Call(b, t, e);
  }

  /** A success and two failures: one more failure opens the breaker. */
  lemma AlmostOpen(a: Atomics, b: Atomics, u: ThreadId) returns (c: Atomics)
    requires Leads(a, b) && u !in b.threads
    ensures Leads(a, c) && c.threads == b.threads && c.now == b.now && c.past.passes == b.past.passes
    ensures c.shared == Fields(Closed, 2, b.shared.openedAt, false) && c.past.opening == b.past.opening
  {
    c := CallLeads(a, b, u, Success);
    UninterruptedSuccess(b, u);
    UninterruptedFailure(c, u);
    c := CallLeads(a, c, u, Failure(b.now));
    UninterruptedFailure(c, u);
    c := CallLeads(a, c, u, Failure(b.now));
  }

  /** From there a third failure opens the breaker, with the time not stored yet. */
  lemma JustOpened(a: Atomics, b: Atomics, u: ThreadId) returns (c: Atomics)
    requires Leads(a, b) && u !in b.threads && b.shared.phase.Closed? && b.shared.failures == 2
    ensures Leads(a, c) && c.threads == b.threads[u := ReadClock(c.past.opening)] && c.now == b.now
    ensures c.shared == b.shared.(phase := Open, failures := 3)
    ensures c.past == b.past.(opening := b.past.opening + 1, openedWhen := b.now, inForce := true)
  {
    c := LeadsOn(a, b, Begin(u, AddFailure));
    c := LeadsOn(a, c, Do(u));
    c := LeadsOn(a, c, Do(u));
    assert c.threads == b.threads[u := ReadClock(c.past.opening)];
  }

  /** The passes since `a`, seen from a later state. */
  ghost predicate Since(a: Atomics, b: Atomics) {
    && a.now <= b.now && a.past.passes <= b.past.passes && a.past.opening <= b.past.opening
    && (a.past.opening == b.past.opening ==> SameOpening(a, b.past.openedWhen, b.past.inForce))
    && forall i :: |a.past.passes| <= i < |b.past.passes| ==> PassSince(a, b, b.past.passes[i])
  }

  /** As long as no opening follows, the latest one is the same, and once over it stays over. */
  predicate SameOpening(a: Atomics, openedWhen: int, inForce: bool) {
    openedWhen == a.past.openedWhen && (inForce ==> a.past.inForce)
  }

  predicate PassSince(a: Atomics, b: Atomics, p: Pass) {
    && a.now <= p.at && a.past.opening <= p.opening <= b.past.opening
    && (p.opening == a.past.opening ==> SameOpening(a, p.openedWhen, p.inForce))
  }

  lemma SinceStep(a: Atomics, b: Atomics, m: Micro)
    requires Since(a, b) && CanDo(b, m)
    ensures Since(a, Effect(b, m))
  {
    var c := Effect(b, m);
    forall i | |a.past.passes| <= i < |c.past.passes|
      ensures PassSince(a, c, c.past.passes[i])
    {
      assert i < |b.past.passes| ==> PassSince(a, b, b.past.passes[i]);
    }
  }

  lemma {:induction false} SinceRun(a: Atomics, b: Atomics, ms: seq<Micro>)
    requires Since(a, b) && CanRun(b, ms)
    ensures Since(a, Interleaving(b, ms))
    decreases |ms|
  {
    if ms != [] {
      SinceStep(a, b, ms[0]);
      SinceRun(a, Effect(b, ms[0]), ms[1..]);
    }
  }

  lemma LeadsInv(a: Atomics, b: Atomics)
    requires Inv(a) && Leads(a, b)
    ensures Inv(b) && Since(a, b)
  {
    var ms :| CanRun(a, ms) && b == Interleaving(a, ms);
    RunInv(a, ms);
    SinceRun(a, a, ms);
  }

  /** Whatever happens, short of another opening, no request with this load goes through early. */
  ghost predicate Safe(a: Atomics, load: Load) {
    forall b, i :: Leads(a, b) && b.past.opening == a.past.opening && |a.past.passes| <= i < |b.past.passes| ==>
      b.past.passes[i].load == load ==> !Early(b.past.passes[i])
  }

  /** The thread is past its load of the opening time and has not gone through yet. */
  predicate HasLoaded(pc: Pc) {
    pc.CheckCooldown? || pc.SwapProbing? || pc.StoreHalfOpen?
  }

  /**
   In every reachable state, a request that has loaded the opening time is safe, short of another opening,
   exactly if the latest opening is over, or its cooldown is, or the loaded time is not from before it.
   */
  lemma SafeExactly(a: Atomics, t: ThreadId)
    requires Reachable(a) && t in a.threads && HasLoaded(a.threads[t])
    ensures Safe(a, a.threads[t].load) <==>
      !a.past.inForce || a.now >= a.past.openedWhen + COOLDOWN || a.threads[t].load.time >= a.past.openedWhen
  {
    var load := a.threads[t].load;
    ReachableInv(a);
    if !a.past.inForce || a.now >= a.past.openedWhen + COOLDOWN || load.time >= a.past.openedWhen {
      forall b, i | Leads(a, b) && b.past.opening == a.past.opening && |a.past.passes| <= i < |b.past.passes|
        ensures b.past.passes[i].load == load ==> !Early(b.past.passes[i])
      {
        LeadsInv(a, b);
        assert PassSince(a, b, b.past.passes[i]) && b.past.passes[i] in b.past.passes && PassOk(b.past.passes[i]);
      }
    } else {
      var b := PassesYoung(a, t);
      assert b.past.passes[|a.past.passes|].load == load;
    }
  }

  /** The stamp of the opening in force is such a time, so a request that loaded it is safe. */
  lemma OwnStampIsSafe(a: Atomics, t: ThreadId)
    requires Reachable(a) && t in a.threads && HasLoaded(a.threads[t])
    requires 0 < a.threads[t].load.tag == a.past.opening
    ensures Safe(a, a.threads[t].load)
  {
    ReachableInv(a);
    assert ThreadOk(a, a.threads[t]);
    SafeExactly(a, t);
  }

  /** The soonest a thread with this load can go through. */
  function Soonest(a: Atomics, load: Load): int {
    if a.now < load.time + COOLDOWN then load.time + COOLDOWN else a.now
  }

  /** Wherever a thread stands past its load, it can go through at the soonest, with no opening in between. */
  lemma PassesYoung(a: Atomics, t: ThreadId) returns (b: Atomics)
    requires Inv(a) && t in a.threads && HasLoaded(a.threads[t])
    ensures Leads(a, b) && b.past.opening == a.past.opening
    ensures
      var load := a.threads[t].load;
      b.past.passes == a.past.passes +
        [Pass(Soonest(a, load), load, a.past.opening, a.past.openedWhen, a.past.inForce)]
  {
    var load := a.threads[t].load;
    assert ThreadOk(a, a.threads[t]);
    b := Tested(a, t);
    if b.threads[t].SwapProbing? {
      b := Elected(a, b, t);
    }
    b := LeadsOn(a, b, Do(t));
  }

  /** A thread at its swap is elected, after a success that is not complete if there is a mark. */
  lemma Elected(a: Atomics, b: Atomics, t: ThreadId) returns (c: Atomics)
    requires Leads(a, b) && t in b.threads && b.threads[t].SwapProbing?
    ensures Leads(a, c) && t in c.threads && c.threads[t].StoreHalfOpen? && c.threads[t].load == b.threads[t].load
    ensures c.now == b.now && SameOpenings(b.past, c.past)
  {
    c := b;
    if c.shared.probing {
      var u := Above(b.threads.Keys);
      c := HalfSuccess(a, b, u);
    }
    c := LeadsOn(a, c, Do(t));
  }

  predicate SameOpenings(g: History, h: History) {
    h.opening == g.opening && h.openedWhen == g.openedWhen && h.inForce == g.inForce && h.passes == g.passes
  }

  /** Thread `u` has cleared the mark and not yet stored closed. */
  lemma HalfSuccess(q: Atomics, a: Atomics, u: ThreadId) returns (b: Atomics)
    requires Leads(q, a) && u !in a.threads
    ensures Leads(q, b) && b.threads == a.threads[u := StoreClosed] && b.past.resets == a.past.resets + 1
    ensures b.shared == a.shared.(failures := 0, probing := false) && b.now == a.now && SameOpenings(a.past, b.past)
  {
    b := LeadsOn(q, a, Begin(u, StoreFailures));
    b := LeadsOn(q, b, Do(u));
    b := LeadsOn(q, b, Do(u));
    assert b.threads == a.threads[u := StoreClosed];
  }

  /**
   Another opening can catch every request: from every reachable state, a thread past its load can still go
   through in the very moment of a later opening.
   */
  lemma LoadedThreadCanBeEarly(a: Atomics, t: ThreadId) returns (b: Atomics)
    requires Reachable(a) && t in a.threads && HasLoaded(a.threads[t])
    ensures Leads(a, b) && |b.past.passes| == |a.past.passes| + 1
    ensures
      var p, load := b.past.passes[|a.past.passes|], a.threads[t].load;
      p.load == load && p.at == p.openedWhen == Soonest(a, load) && Early(p)
  {
    var u := Above(a.threads.Keys);
    ReachableInv(a);
    assert ThreadOk(a, a.threads[t]);
    b := Tested(a, t);
    b := AlmostOpen(a, b, u);
    b := JustOpened(a, b, u);
    if b.threads[t].SwapProbing? {
      b := LeadsOn(a, b, Do(t));
    }
    b := LeadsOn(a, b, Do(t));
  }

  /** The thread has made its test, at the soonest time at which it succeeds. */
  lemma Tested(a: Atomics, t: ThreadId) returns (b: Atomics)
    requires t in a.threads && HasLoaded(a.threads[t]) && ThreadOk(a, a.threads[t])
    ensures Leads(a, b) && b.past == a.past && b.shared == a.shared && b.threads.Keys == a.threads.Keys
    ensures b.now == Soonest(a, a.threads[t].load)
    ensures HasLoaded(b.threads[t]) && !b.threads[t].CheckCooldown? && b.threads[t].load == a.threads[t].load
  {
    LeadsSelf(a);
    b := a;
    if b.threads[t].CheckCooldown? {
      b := LeadsOn(a, b, Tick(Soonest(a, a.threads[t].load) - a.now));
      b := LeadsOn(a, b, Do(t));
    }
  }

  // ---------------------------------------------------------------------------------------------
  // The probe mark under interleaving
  // ---------------------------------------------------------------------------------------------

  predicate Unmarked(a: Atomics) {
    a.shared.phase.HalfOpen? && !a.shared.probing
  }

  /** In every interleaving, half-open is without its mark exactly when a reset came after the latest election. */
  lemma UnmarkedExactly(a: Atomics)
    requires Reachable(a)
    ensures Unmarked(a) <==> a.shared.phase.HalfOpen? && a.past.lastEpoch < a.past.resets
  {
    ReachableInv(a);
  }

  /**
   The cause: a reset fell between the election that made the state half-open and its store of half-open, or
   a success is between its last two stores.
   */
  lemma UnmarkedCause(a: Atomics)
    requires Reachable(a) && Unmarked(a)
    ensures a.past.halfEpoch < a.past.halfResets || AnyClosing(a)
  {
    ReachableInv(a);
  }

  // ---------------------------------------------------------------------------------------------
  // Interleavings that break the laws of whole calls
  // ---------------------------------------------------------------------------------------------

  lemma StartOpen(now: int) returns (a: Atomics)
    ensures Leads(Quiet(now), a) && a.shared == Fields(Open, 3, 0, false) && a.threads == map[0 := ReadClock(1)]
    ensures a.now == now && a.past.opening == 1 && a.past.openedWhen == now && a.past.inForce
    ensures a.past.writer == 0 && a.past.stamps == map[] && a.past.passes == [] && a.past.resets == 0
  {
    LeadsSelf(Quiet(now));
    a := CallLeads(Quiet(now), Quiet(now), 0, Failure(now));
    UninterruptedFailure(Quiet(now), 0);
    UninterruptedFailure(a, 0);
    a := CallLeads(Quiet(now), a, 0, Failure(now));
    a := JustOpened(Quiet(now), a, 0);
  }

  lemma LeadsReachable(now: int, a: Atomics)
    requires Leads(Quiet(now), a)
    ensures Reachable(a)
  {}

  /** A request made before the opening time is stored goes through at once, without any cooldown. */
  lemma StaleOpeningTime(now: int) returns (a: Atomics)
    requires now >= COOLDOWN
    ensures Reachable(a) && a.threads == map[0 := ReadClock(1)] && |a.past.passes| == 1
    ensures Early(a.past.passes[0]) && LoadedOther(a.past.passes[0]) && !Reopened(a.past.passes[0])
  {
    var b := StartOpen(now);
    a := CallLeads(Quiet(now), b, 1, Ask(now));
    UninterruptedAsk(b, 1);
    LeadsReachable(now, a);
  }

  /**
   A stamp stored late overwrites that of a newer opening; then even a request whose call nothing
   interrupts, with no other call in flight, goes through in the moment of the opening in force.
   */
  lemma LateStampOverwrites(now: int) returns (a: Atomics)
    ensures Reachable(a) && a.threads == map[] && |a.past.passes| == 1
    ensures Early(a.past.passes[0]) && LoadedOther(a.past.passes[0]) && !Reopened(a.past.passes[0])
  {
    var q := Quiet(now);
    a := StartOpen(now);
    a := LeadsOn(q, a, Do(0));
    a := LeadsOn(q, a, Tick(COOLDOWN));
    a := SecondOpening(q, a);
    var b := LeadsOn(q, a, Do(0));
    assert b.threads == map[];
    a := CallLeads(q, b, 1, Ask(b.now));
    UninterruptedAsk(b, 1);
    LeadsReachable(now, a);
  }

  /** While thread 0 holds its stamp, thread 1 closes the breaker and opens it again. */
  lemma SecondOpening(q: Atomics, a: Atomics) returns (b: Atomics)
    requires Leads(q, a) && a.past.passes == [] && a.past.opening == 1
    requires a.threads.Keys == {0} && a.threads[0].StoreOpenedAt?
    ensures Leads(q, b) && b.threads == a.threads && b.now == a.now && b.past.passes == []
    ensures b.shared.phase.Open? && !b.shared.probing
    ensures b.past.opening == 2 && b.past.openedWhen == a.now && b.past.inForce
  {
    b := AlmostOpen(q, a, 1);
    b := JustOpened(q, b, 1);
    b := LeadsOn(q, b, Do(1));
    b := LeadsOn(q, b, Do(1));
    assert b.threads == a.threads;
  }

  /** A thread that has made its test against the initial time while opening 1 was not stamped. */
  lemma TestedTooSoon(now: int) returns (a: Atomics)
    requires now >= COOLDOWN
    ensures Leads(Quiet(now), a) && a.shared == Fields(Open, 3, 0, false) && a.now == now
    ensures a.threads == map[0 := ReadClock(1), 1 := SwapProbing(Load(0, 0, 1))] && a.past.passes == []
    ensures a.past.opening == 1 && a.past.openedWhen == now && a.past.inForce && a.past.resets == 0
  {
    var q := Quiet(now);
    a := StartOpen(now);
    a := LeadsOn(q, a, Begin(1, LoadPhase));
    a := LeadsOn(q, a, Do(1));
    a := LeadsOn(q, a, Do(1));
    a := LeadsOn(q, a, Do(1));
    assert a.threads == map[0 := ReadClock(1), 1 := SwapProbing(Load(0, 0, 1))];
  }

  /** Another time than the stamp is not early by itself: the request may dwell until the cooldown is over. */
  lemma StaleYetCooled(now: int) returns (a: Atomics)
    requires now >= COOLDOWN
    ensures Reachable(a) && |a.past.passes| == 1
    ensures a.past.passes[0].inForce && LoadedOther(a.past.passes[0]) && !Early(a.past.passes[0])
  {
    var q := Quiet(now);
    a := TestedTooSoon(now);
    a := LeadsOn(q, a, Tick(COOLDOWN));
    a := LeadsOn(q, a, Do(1));
    a := LeadsOn(q, a, Do(1));
    LeadsReachable(now, a);
  }

  /** A success between an election and its store of half-open leaves half-open unmarked, with no call in flight. */
  lemma ProbelessHalfOpen(now: int) returns (a: Atomics)
    requires now >= COOLDOWN
    ensures Reachable(a) && a.threads == map[] && Unmarked(a)
  {
    var q := Quiet(now);
    a := TestedTooSoon(now);
    a := LeadsOn(q, a, Do(1));
    a := CallLeads(q, a, 2, Success);
    a := LeadsOn(q, a, Do(1));
    a := StampStored(q, a, 0);
    assert a.threads == map[];
    LeadsReachable(now, a);
  }

  /** The opener reads the clock and stores the time. */
  lemma StampStored(q: Atomics, a: Atomics, t: ThreadId) returns (b: Atomics)
    requires Leads(q, a) && t in a.threads && a.threads[t].ReadClock?
    ensures Leads(q, b) && b.threads == a.threads - {t} && b.shared == a.shared.(openedAt := a.now)
  {
    b := LeadsOn(q, a, Do(t));
    b := LeadsOn(q, b, Do(t));
    assert b.threads == a.threads - {t};
  }

  /** A reset in that place alone does not suffice: another thread's election can set the mark again. */
  lemma RemarkedHalfOpen(now: int) returns (a: Atomics)
    requires now >= COOLDOWN
    ensures Reachable(a) && a.shared.phase.HalfOpen? && a.past.halfEpoch < a.past.halfResets && !Unmarked(a)
  {
    var q := Quiet(now);
    a := TestedTooSoon(now);
    a := LeadsOn(q, a, Begin(2, LoadPhase));
    a := LeadsOn(q, a, Do(2));
    a := LeadsOn(q, a, Do(2));
    a := LeadsOn(q, a, Do(2));
    a := LeadsOn(q, a, Do(1));
    a := HalfSuccess(q, a, 3);
    a := LeadsOn(q, a, Do(2));
    a := LeadsOn(q, a, Do(1));
    LeadsReachable(now, a);
  }
}
