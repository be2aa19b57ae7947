/** What a read is answered with, over every interleaving and when nothing comes in between. */
module CacheLaws {
  import opened Options
  import opened NamespaceCache

  // ---------------------------------------------------------------------------------------------
  // A read fails only for want of a row
  // ---------------------------------------------------------------------------------------------

  predicate Failed(s: State, r: ReaderId) {
    r in s.readers && s.readers[r].phase == Done(LoadError)
  }

  /** In every reachable state: a failed read had no row to return at some commit since it was entitled to one. */
  lemma FailureMeansAbsent(s: State, r: ReaderId)
    requires Reachable(s) && Failed(s, r)
    ensures exists k :: s.readers[r].since <= k < |s.rows| && s.readers[r].node !in s.rows[k]
  {
    ReachableInv(s);
    assert ReaderOk(s, s.readers[r]);
  }

  /** If reader `r` has failed, its node had no row at some commit from `floor` on. */
  ghost predicate FailsOnlyAbsent(s: State, r: ReaderId, floor: nat) {
    Shaped(s) && floor <= Commits(s) && (Failed(s, r) ==> Absent(s, s.readers[r].node, floor))
  }

  predicate WaitsForOwnNode(rd: Reader) {
    rd.phase.Waiting? ==> rd.phase.key.key.node == rd.node
  }

  lemma FailsAfterCall(s: State, step: Step, r: ReaderId)
    requires Enabled(s, step) && Failed(Next(s, step), r)
    ensures r in s.readers
  {}

  /** A read that fails with this step finds no row now. */
  lemma FailureOrigin(s: State, step: Step, r: ReaderId)
    requires Enabled(s, step) && r in s.readers && !Failed(s, r) && WaitsForOwnNode(s.readers[r])
    requires Failed(Next(s, step), r)
    ensures
      var node := s.readers[r].node;
      Next(s, step).readers[r].node == node && Next(s, step).rows == s.rows && Load(s, node) == LoadError
  {
    assert step.Bypass? || step.FlightLoad?;
  }

  lemma FailsStep(s: State, step: Step, r: ReaderId, floor: nat)
    requires Inv(s) && Enabled(s, step) && Extends(s, Next(s, step)) && FailsOnlyAbsent(s, r, floor)
    ensures FailsOnlyAbsent(Next(s, step), r, floor)
  {
    var t := Next(s, step);
    if Failed(t, r) && !Failed(s, r) {
      FailsAfterCall(s, step, r);
      assert ReaderOk(s, s.readers[r]);
      FailureOrigin(s, step, r);
      LoadGenuine(s, t.readers[r].node, floor);
    } else if Failed(t, r) {
      FailedStays(s, step, r);
      OutcomeLater(s, t, s.readers[r].node, LoadError, floor);
    }
  }

  lemma FailedStays(s: State, step: Step, r: ReaderId)
    requires Enabled(s, step) && Failed(s, r)
    ensures Next(s, step).readers[r] == s.readers[r]
  {}

  lemma {:induction false} FailsRun(s: State, steps: seq<Step>, r: ReaderId, floor: nat)
    requires Inv(s) && Legal(s, steps) && FailsOnlyAbsent(s, r, floor)
    ensures FailsOnlyAbsent(Run(s, steps), r, floor)
    decreases |steps|
  {
    if steps != [] {
      InvStep(s, steps[0]);
      FailsStep(s, steps[0], r, floor);
      FailsRun(Next(s, steps[0]), steps[1..], r, floor);
    }
  }

  /**
   In every interleaving: a node that has a row in every table since the read was called is answered with
   its row, as it was at some commit not older than the last effective bump before the call.
   */
  lemma PresentIsAnswered(s: State, steps: seq<Step>, r: ReaderId)
    requires Reachable(s) && Shaped(s) && Legal(s, steps) && r !in s.readers
    requires
      var t := Run(s, steps);
      && r in t.readers && t.readers[r].phase.Done?
      && forall k :: Commits(s) <= k < |t.rows| ==> t.readers[r].node in t.rows[k]
    ensures ReturnedSince(Run(s, steps), r, Floor(s))
  {
    ReachableInv(s);
    FailsRun(s, steps, r, Commits(s));
    EntitledAnswer(s, steps, r);
  }

  // ---------------------------------------------------------------------------------------------
  // A read with nothing in between
  // ---------------------------------------------------------------------------------------------

  /** The steps, one after the other, lead from `s` to `t`. */
  ghost predicate Plays(s: State, steps: seq<Step>, t: State) {
    Legal(s, steps) && Run(s, steps) == t
  }

  lemma PlaysOn(s: State, steps: seq<Step>, t: State, step: Step) returns (u: State)
    requires Plays(s, steps, t) && Enabled(t, step)
    ensures Plays(s, steps + [step], u) && u == Next(t, step)
  {
    RunSnoc(s, steps, step);
    u := Next(t, step);
  }

  function CurrentTable(s: State): Table
    requires Shaped(s)
  {
    s.rows[Commits(s)]
  }

  /** The row of the node as a load finds it now. */
  function FreshEntry(s: State, node: NodeId): Entry
    requires Shaped(s) && node in CurrentTable(s)
  {
    Entry(CurrentTable(s)[node], Commits(s), s.clock.now)
  }

  predicate Ended(s: State, r: ReaderId, o: Outcome) {
    r in s.readers && s.readers[r].phase == Done(o)
  }

  /** The call and its look at the generation. */
  lemma Called(s: State, r: ReaderId, process: ProcessId, node: NodeId) returns (t: State)
    requires Shaped(s) && r !in s.readers
    ensures Plays(s, [Begin(r, process, node), ReadGen(r)], t)
    ensures t == s.(readers := s.readers[r := Reader(process, node, Floor(s), HasGen(s.gen))])
  {
    assert Run(s, []) == s;
    t := PlaysOn(s, [], s, Begin(r, process, node));
    t := PlaysOn(s, [Begin(r, process, node)], t, ReadGen(r));
    assert [Begin(r, process, node)] + [ReadGen(r)] == [Begin(r, process, node), ReadGen(r)];
  }

  /** A hit is answered with what is cached under the live generation, and loads nothing. */
  lemma UndisturbedHit(s: State, r: ReaderId, process: ProcessId, node: NodeId) returns (t: State)
    requires Shaped(s) && r !in s.readers && Readable(s, Key(s.gen, node))
    ensures Plays(s, [Begin(r, process, node), ReadGen(r), Lookup(r, true)], t)
    ensures Ended(t, r, Returned(s.cache[Key(s.gen, node)].entry))
    ensures t == s.(readers := t.readers)
  {
    t := Called(s, r, process, node);
    var steps := [Begin(r, process, node), ReadGen(r)];
    t := PlaysOn(s, steps, t, Lookup(r, true));
    assert steps + [Lookup(r, true)] == [Begin(r, process, node), ReadGen(r), Lookup(r, true)];
  }

  function MissSteps(r: ReaderId, process: ProcessId, node: NodeId, flight: FlightKey): seq<Step> {
    [Begin(r, process, node), ReadGen(r), Lookup(r, false), Enter(r), FlightLoad(flight)]
  }

  function FlightOf(s: State, process: ProcessId, node: NodeId): FlightKey {
    FlightKey(process, Key(s.gen, node))
  }

  /** A miss leads a flight of its own. */
  lemma Leading(s: State, r: ReaderId, process: ProcessId, node: NodeId) returns (t: State)
    requires Shaped(s) && r !in s.readers && FlightOf(s, process, node) !in s.flights
    ensures Plays(s, [Begin(r, process, node), ReadGen(r), Lookup(r, false), Enter(r)], t)
    ensures
      var flight := FlightOf(s, process, node);
      t == s.(readers := s.readers[r := Reader(process, node, Floor(s), Waiting(flight))],
              flights := s.flights[flight := Loading])
  {
    t := Called(s, r, process, node);
    var steps := [Begin(r, process, node), ReadGen(r)];
    t := PlaysOn(s, steps, t, Lookup(r, false));
    t := PlaysOn(s, steps + [Lookup(r, false)], t, Enter(r));
    assert steps + [Lookup(r, false)] + [Enter(r)] == [Begin(r, process, node), ReadGen(r), Lookup(r, false), Enter(r)];
  }

  lemma LoadStep(s: State, r: ReaderId, process: ProcessId, node: NodeId) returns (t: State)
    requires Shaped(s) && r !in s.readers && FlightOf(s, process, node) !in s.flights
    ensures Plays(s, MissSteps(r, process, node, FlightOf(s, process, node)), t)
    ensures t.cache == s.cache && t.sets == s.sets && t.rows == s.rows && t.gen == s.gen && t.clock == s.clock
    ensures Shaped(t)
    ensures
      var flight := FlightOf(s, process, node);
      if node in CurrentTable(s)
      then
        && r in t.readers && t.readers[r].phase == Waiting(flight)
        && t.flights == s.flights[flight := Loaded(FreshEntry(s, node))]
      else Ended(t, r, LoadError) && t.flights == s.flights
  {
    t := Leading(s, r, process, node);
    var steps := [Begin(r, process, node), ReadGen(r), Lookup(r, false), Enter(r)];
    var flight := FlightOf(s, process, node);
    assert t.flights - {flight} == s.flights;
    t := PlaysOn(s, steps, t, FlightLoad(flight));
    assert steps + [FlightLoad(flight)] == MissSteps(r, process, node, flight);
  }

  /** A node without a row: the read fails, and nothing is cached. */
  lemma UndisturbedFailure(s: State, r: ReaderId, process: ProcessId, node: NodeId) returns (t: State)
    requires Shaped(s) && r !in s.readers && FlightOf(s, process, node) !in s.flights && node !in CurrentTable(s)
    ensures Plays(s, MissSteps(r, process, node, FlightOf(s, process, node)), t)
    ensures Ended(t, r, LoadError) && t.cache == s.cache && t.flights == s.flights
  {
    t := LoadStep(s, r, process, node);
  }

  /** A miss is answered with the database's row of the moment, which is then cached under the live generation. */
  lemma UndisturbedMiss(s: State, r: ReaderId, process: ProcessId, node: NodeId, id: nat) returns (t: State)
    requires Shaped(s) && r !in s.readers && FlightOf(s, process, node) !in s.flights && id !in s.sets
    requires node in CurrentTable(s)
    ensures
      var flight := FlightOf(s, process, node);
      Plays(s, MissSteps(r, process, node, flight) + [FlightStore(flight, id), SetLands(id), FlightLand(flight)], t)
    ensures Ended(t, r, Returned(FreshEntry(s, node)))
    ensures t.cache == s.cache[Key(s.gen, node) := Cached(FreshEntry(s, node), s.clock.now)]
    ensures t.flights == s.flights && t.sets == s.sets && t.rows == s.rows && t.gen == s.gen
  {
    var flight := FlightOf(s, process, node);
    var steps := MissSteps(r, process, node, flight);
    var a := LoadStep(s, r, process, node);
    t := PlaysOn(s, steps, a, FlightStore(flight, id));
    t := PlaysOn(s, steps + [FlightStore(flight, id)], t, SetLands(id));
    var b := t;
    assert b.sets == s.sets;
    t := PlaysOn(s, steps + [FlightStore(flight, id)] + [SetLands(id)], b, FlightLand(flight));
    assert t.flights == s.flights;
    assert steps + [FlightStore(flight, id)] + [SetLands(id)] + [FlightLand(flight)] ==
      steps + [FlightStore(flight, id), SetLands(id), FlightLand(flight)];
  }

  /** A flight that lands answers all its waiters, leader and followers, with the one row it loaded. */
  lemma LandAnswersAll(s: State, flight: FlightKey, r: ReaderId)
    requires Enabled(s, FlightLand(flight)) && r in s.readers
    ensures
      var t := Next(s, FlightLand(flight));
      if s.readers[r].phase == Waiting(flight) then Ended(t, r, Returned(s.flights[flight].entry))
      else t.readers[r] == s.readers[r]
  {}

  // ---------------------------------------------------------------------------------------------
  // Nobody is left waiting
  // ---------------------------------------------------------------------------------------------

  ghost predicate Attended(s: State) {
    forall r :: r in s.readers && s.readers[r].phase.Waiting? ==> s.readers[r].phase.key in s.flights
  }

  lemma AttendedStep(s: State, step: Step)
    requires Enabled(s, step) && Attended(s)
    ensures Attended(Next(s, step))
  {
    var t := Next(s, step);
    forall r | r in t.readers && t.readers[r].phase.Waiting?
      ensures t.readers[r].phase.key in t.flights
    {
      assert r in s.readers;
    }
  }

  lemma {:induction false} AttendedRun(s: State, steps: seq<Step>)
    requires Attended(s) && Legal(s, steps)
    ensures Attended(Run(s, steps))
    decreases |steps|
  {
    if steps != [] {
      AttendedStep(s, steps[0]);
      AttendedRun(Next(s, steps[0]), steps[1..]);
    }
  }

  lemma ReachableAttended(s: State)
    requires Reachable(s)
    ensures Attended(s)
  {
    var table, ttl, steps :| Legal(Init(table, ttl), steps) && s == Run(Init(table, ttl), steps);
    AttendedRun(Init(table, ttl), steps);
  }

  predicate CanMove(s: State, flight: FlightKey, id: nat) {
    Enabled(s, FlightLoad(flight)) || Enabled(s, FlightStore(flight, id)) || Enabled(s, FlightLand(flight))
  }

  lemma FlightMoves(s: State, flight: FlightKey, id: nat)
    requires Shaped(s) && flight in s.flights && id !in s.sets
    ensures CanMove(s, flight, id)
  {}

  /** In every reachable state the flight a reader waits for is under way, and one of its own steps is next. */
  lemma NobodyStranded(s: State, r: ReaderId, id: nat)
    requires Reachable(s) && r in s.readers && s.readers[r].phase.Waiting? && id !in s.sets
    ensures CanMove(s, s.readers[r].phase.key, id)
  {
    ReachableInv(s);
    ReachableAttended(s);
    FlightMoves(s, s.readers[r].phase.key, id);
  }

  // ---------------------------------------------------------------------------------------------
  // One load for all who wait
  // ---------------------------------------------------------------------------------------------

  /** The step makes its reader the leader of a new flight under that key. */
  predicate StartsFlight(s: State, step: Step, flight: FlightKey) {
    && step.Enter? && step.r in s.readers && s.readers[step.r].phase.Missed?
    && flight == FlightKey(s.readers[step.r].process, Key(s.readers[step.r].phase.gen, s.readers[step.r].node))
    && flight !in s.flights
  }

  function FlightsStarted(s: State, steps: seq<Step>, flight: FlightKey): nat
    requires Legal(s, steps)
    decreases |steps|
  {
    if steps == [] then 0
    else (if StartsFlight(s, steps[0], flight) then 1 else 0) + FlightsStarted(Next(s, steps[0]), steps[1..], flight)
  }

  function LoadsOf(steps: seq<Step>, flight: FlightKey): nat {
    if steps == [] then 0 else (if steps[0] == FlightLoad(flight) then 1 else 0) + LoadsOf(steps[1..], flight)
  }

  /** A flight under that key has yet to load. */
  function YetToLoad(s: State, flight: FlightKey): nat {
    if flight in s.flights && s.flights[flight] == Loading then 1 else 0
  }

  lemma LoadBalance(s: State, step: Step, flight: FlightKey)
    requires Enabled(s, step)
    ensures
      var started := if StartsFlight(s, step, flight) then 1 else 0;
      var loaded := if step == FlightLoad(flight) then 1 else 0;
      YetToLoad(s, flight) + started == YetToLoad(Next(s, step), flight) + loaded
  {}

  /** Along any run, however many readers miss at once, the loader runs once for every flight started, no more. */
  lemma {:induction false} OneLoadPerFlight(s: State, steps: seq<Step>, flight: FlightKey)
    requires Legal(s, steps)
    ensures YetToLoad(s, flight) + FlightsStarted(s, steps, flight) ==
      LoadsOf(steps, flight) + YetToLoad(Run(s, steps), flight)
    decreases |steps|
  {
    if steps != [] {
      LoadBalance(s, steps[0], flight);
      OneLoadPerFlight(Next(s, steps[0]), steps[1..], flight);
    }
  }
}
