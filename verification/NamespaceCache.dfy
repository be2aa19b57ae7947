/**
 The generation-indexed namespace cache of internal/database/cache.go and the commit-then-bump wrappers
 of internal/database/client.go, as a protocol for one tenant: any number of readers and writers in any
 number of processes, whose atomic steps (one Redis command, one database transaction, one singleflight
 action) interleave freely.

 Keys embed the tenant, so tenants do not interact. `bases`, `stamp`, `since`, `loadedAt` and the commit times
 are history: no step chooses what to do by looking at them.
 */
module NamespaceCache {
  import opened Options

  type NodeId = string
  type ReaderId = nat
  type WriterId = nat
  type ProcessId = nat

  datatype NodeMeta = NodeMeta(parent: Option<NodeId>, name: string, kind: string, lineage: string, aclEpoch: int)

  type Table = map<NodeId, NodeMeta>

  datatype Key = Key(gen: nat, node: NodeId)

  /** Each process has a singleflight group of its own. */
  datatype FlightKey = FlightKey(process: ProcessId, key: Key)

  /** A value together with the number of commits the database had seen when it was loaded, and when that was. */
  datatype Entry = Entry(value: NodeMeta, stamp: nat, loadedAt: nat)

  /** What the server holds: an entry, readable until the time to live after its SET is over. */
  datatype Cached = Cached(entry: Entry, setAt: nat)

  /** A SET on its way to the server. */
  datatype Sent = Sent(key: Key, entry: Entry)

  /** The time to live, the time, and when each commit was made. */
  datatype Clock = Clock(ttl: nat, now: nat, commits: seq<nat>)

  /** The leader's progress: loader running, result in hand, SET attempted. */
  datatype Flight = Loading | Loaded(entry: Entry) | Stored(entry: Entry)

  datatype Outcome = Returned(entry: Entry) | LoadError

  datatype Phase =
    | Started                    // called, generation not read yet
    | HasGen(gen: nat)           // holds the generation, cache not consulted yet
    | Missed(gen: nat)           // nothing usable under its key
    | Waiting(key: FlightKey)    // in its process's singleflight, as leader or follower
    | Done(outcome: Outcome)

  datatype Reader = Reader(process: ProcessId, node: NodeId, since: nat, phase: Phase)

  /** A mutation: committed, then its generation bump took effect or did not. */
  datatype Writer = Committed(commit: nat) | Finished(commit: nat, bumped: bool)

  datatype State = State(
    rows: seq<Table>,            // the table after 0, 1, 2, ... commits
    gen: nat,
    bases: seq<nat>,             // the number of commits when each generation went live
    cache: map<Key, Cached>,
    sets: map<nat, Sent>,        // by request number
    flights: map<FlightKey, Flight>,
    readers: map<ReaderId, Reader>,
    writers: map<WriterId, Writer>,
    clock: Clock)

  function Commits(s: State): nat
    requires s.rows != []
  {
    |s.rows| - 1
  }

  predicate Shaped(s: State) {
    s.rows != [] && |s.bases| == s.gen + 1
  }

  /** The commits every reader that starts now is entitled to see. */
  function Floor(s: State): nat
    requires Shaped(s)
  {
    s.bases[s.gen]
  }

  function Init(table: Table, ttl: nat): State {
    State([table], 0, [0], map[], map[], map[], map[], map[], Clock(ttl, 0, [0]))
  }

  /** What the loader's query returns now. */
  function Load(s: State, node: NodeId): Outcome
    requires Shaped(s)
  {
    var table := s.rows[Commits(s)];
    if node in table then Returned(Entry(table[node], Commits(s), s.clock.now)) else LoadError
  }

  datatype Step =
    | Commit(w: WriterId, table: Table)          // the mutation's transaction commits
    | Bump(w: WriterId, applied: bool)           // INCR; `applied` is false when it had no effect
    | Begin(r: ReaderId, process: ProcessId, node: NodeId)   // GetNodeMetadata is called
    | ReadGen(r: ReaderId)                       // GET of the counter
    | Bypass(r: ReaderId)                        // a Redis error: straight to the loader
    | Lookup(r: ReaderId, usable: bool)          // GET of the key; `usable` is false for a corrupt payload
    | Enter(r: ReaderId)                         // singleflight.Do: lead a new flight or join one
    | FlightLoad(flight: FlightKey)              // the leader's loader runs
    | FlightStore(flight: FlightKey, id: nat)    // SET is sent; its outcome does not matter to the caller
    | SetLands(id: nat)                          // the server executes it, perhaps after the caller gave up
    | FlightLand(flight: FlightKey)              // all waiters get the leader's result
    | Evict(key: Key)                            // expiry, or any other removal
    | Tick(elapsed: nat)

  predicate Readable(s: State, key: Key) {
    key in s.cache && s.clock.now < s.cache[key].setAt + s.clock.ttl
  }

  predicate Enabled(s: State, step: Step) {
    Shaped(s) &&
    match step
    case Commit(w, _) => w !in s.writers
    case Bump(w, _) => w in s.writers && s.writers[w].Committed?
    case Begin(r, _, _) => r !in s.readers
    case ReadGen(r) => r in s.readers && s.readers[r].phase == Started
    case Bypass(r) => r in s.readers && (s.readers[r].phase == Started || s.readers[r].phase.HasGen?)
    case Lookup(r, usable) =>
      && r in s.readers && s.readers[r].phase.HasGen?
      && (usable ==> Readable(s, Key(s.readers[r].phase.gen, s.readers[r].node)))
    case Enter(r) => r in s.readers && s.readers[r].phase.Missed?
    case FlightLoad(flight) => flight in s.flights && s.flights[flight] == Loading
    case FlightStore(flight, id) => flight in s.flights && s.flights[flight].Loaded? && id !in s.sets
    case SetLands(id) => id in s.sets
    case FlightLand(flight) => flight in s.flights && s.flights[flight].Stored?
    case Evict(_) => true
    case Tick(_) => true
  }

  function WithPhase(s: State, r: ReaderId, phase: Phase): State
    requires r in s.readers
  {
    s.(readers := s.readers[r := s.readers[r].(phase := phase)])
  }

  /** Every reader waiting on the flight gets the outcome. */
  function Deliver(readers: map<ReaderId, Reader>, flight: FlightKey, outcome: Outcome): map<ReaderId, Reader> {
    map r | r in readers ::
      if readers[r].phase == Waiting(flight) then readers[r].(phase := Done(outcome)) else readers[r]
  }

  function Next(s: State, step: Step): State
    requires Enabled(s, step)
  {
    match step
    case Commit(w, table) =>
      s.(rows := s.rows + [table], writers := s.writers[w := Committed(|s.rows|)],
         clock := s.clock.(commits := s.clock.commits + [s.clock.now]))
    case Bump(w, applied) =>
      var s1 := s.(writers := s.writers[w := Finished(s.writers[w].commit, applied)]);
      if applied then s1.(gen := s.gen + 1, bases := s.bases + [Commits(s)]) else s1
    case Begin(r, process, node) => s.(readers := s.readers[r := Reader(process, node, Floor(s), Started)])
    case ReadGen(r) => WithPhase(s, r, HasGen(s.gen))
    case Bypass(r) => WithPhase(s, r, Done(Load(s, s.readers[r].node)))
    case Lookup(r, usable) =>
      var key := Key(s.readers[r].phase.gen, s.readers[r].node);
      WithPhase(s, r, if usable then Done(Returned(s.cache[key].entry)) else Missed(key.gen))
    case Enter(r) =>
      var flight := FlightKey(s.readers[r].process, Key(s.readers[r].phase.gen, s.readers[r].node));
      var s1 := WithPhase(s, r, Waiting(flight));
      if flight in s.flights then s1 else s1.(flights := s.flights[flight := Loading])
    case FlightLoad(flight) =>
      var o := Load(s, flight.key.node);
      if o.Returned? then s.(flights := s.flights[flight := Loaded(o.entry)])
      else s.(flights := s.flights - {flight}, readers := Deliver(s.readers, flight, o))
    case FlightStore(flight, id) =>
      var e := s.flights[flight].entry;
      s.(sets := s.sets[id := Sent(flight.key, e)], flights := s.flights[flight := Stored(e)])
    case SetLands(id) =>
      var sent := s.sets[id];
      s.(cache := s.cache[sent.key := Cached(sent.entry, s.clock.now)], sets := s.sets - {id})
    case FlightLand(flight) =>
      s.(flights := s.flights - {flight}, readers := Deliver(s.readers, flight, Returned(s.flights[flight].entry)))
    case Evict(key) => s.(cache := s.cache - {key})
    case Tick(d) => s.(clock := s.clock.(now := s.clock.now + d))
  }

  // ---------------------------------------------------------------------------------------------
  // The invariant
  // ---------------------------------------------------------------------------------------------

  /** `e` is the row of `node` as of some commit not older than `since`. */
  ghost predicate Genuine(s: State, node: NodeId, e: Entry, since: nat) {
    since <= e.stamp < |s.rows| && node in s.rows[e.stamp] && s.rows[e.stamp][node] == e.value
  }

  /** At some commit not older than `since` the node had no row. */
  ghost predicate Absent(s: State, node: NodeId, since: nat) {
    exists k :: since <= k < |s.rows| && node !in s.rows[k]
  }

  /** An answer is a genuine row, and an error means that there was none. */
  ghost predicate OutcomeOk(s: State, node: NodeId, o: Outcome, since: nat) {
    match o
    case Returned(e) => Genuine(s, node, e, since)
    case LoadError => Absent(s, node, since)
  }

  ghost predicate BasesOk(s: State) {
    && Shaped(s)
    && (forall g :: 0 <= g < |s.bases| ==> s.bases[g] <= Commits(s))
    && (forall g, h :: 0 <= g <= h < |s.bases| ==> s.bases[g] <= s.bases[h])
  }

  ghost predicate KeyOk(s: State, key: Key) {
    key.gen < |s.bases|
  }

  ghost predicate SentOk(s: State, x: Sent) {
    KeyOk(s, x.key) && Genuine(s, x.key.node, x.entry, s.bases[x.key.gen])
  }

  ghost predicate CacheOk(s: State)
    requires Shaped(s)
  {
    && (forall key :: key in s.cache ==> KeyOk(s, key) && Genuine(s, key.node, s.cache[key].entry, s.bases[key.gen]))
    && (forall id :: id in s.sets ==> SentOk(s, s.sets[id]))
  }

  ghost predicate FlightsOk(s: State)
    requires Shaped(s)
  {
    forall flight :: flight in s.flights ==>
      && KeyOk(s, flight.key)
      && (!s.flights[flight].Loading? ==>
            Genuine(s, flight.key.node, s.flights[flight].entry, s.bases[flight.key.gen]))
  }

  ghost predicate ReaderOk(s: State, rd: Reader)
    requires Shaped(s)
  {
    && rd.since <= Floor(s)
    && match rd.phase
       case Started => true
       case HasGen(g) => g < |s.bases| && rd.since <= s.bases[g]
       case Missed(g) => g < |s.bases| && rd.since <= s.bases[g]
       case Waiting(flight) =>
         KeyOk(s, flight.key) && flight.key.node == rd.node && rd.since <= s.bases[flight.key.gen]
       case Done(o) => OutcomeOk(s, rd.node, o, rd.since)
  }

  ghost predicate ReadersOk(s: State)
    requires Shaped(s)
  {
    forall r :: r in s.readers ==> ReaderOk(s, s.readers[r])
  }

  ghost predicate WritersOk(s: State)
    requires Shaped(s)
  {
    && (forall w :: w in s.writers ==> 0 < s.writers[w].commit <= Commits(s))
    && (forall w :: w in s.writers && s.writers[w].Finished? && s.writers[w].bumped ==> s.writers[w].commit <= Floor(s))
    && (Commits(s) > 0 ==> exists w :: w in s.writers && s.writers[w].commit == Commits(s))
  }

  ghost predicate Inv(s: State) {
    BasesOk(s) && CacheOk(s) && FlightsOk(s) && ReadersOk(s) && WritersOk(s)
  }

  /** The database history only grows, old generations keep their base, and the floor never falls. */
  ghost predicate Extends(s: State, t: State) {
    && Shaped(s) && Shaped(t)
    && s.rows <= t.rows
    && s.bases <= t.bases
    && Floor(s) <= Floor(t)
  }

  lemma StepExtends(s: State, step: Step)
    requires BasesOk(s) && Enabled(s, step)
    ensures Extends(s, Next(s, step)) && BasesOk(Next(s, step))
  {
    if !step.Commit? && !step.Bump? {
      OtherStepsFrame(s, step);
    }
  }

  lemma GenuineLater(s: State, t: State, node: NodeId, e: Entry, since: nat)
    requires Extends(s, t) && Genuine(s, node, e, since)
    ensures Genuine(t, node, e, since)
  {}

  /** What a load returns now is no older than any generation's base. */
  lemma LoadGenuine(s: State, node: NodeId, since: nat)
    requires BasesOk(s) && since <= Commits(s)
    ensures OutcomeOk(s, node, Load(s, node), since)
  {
    assert node !in s.rows[Commits(s)] ==> Load(s, node) == LoadError;
  }

  lemma OutcomeLater(s: State, t: State, node: NodeId, o: Outcome, since: nat)
    requires Extends(s, t) && OutcomeOk(s, node, o, since)
    ensures OutcomeOk(t, node, o, since)
  {
    if o.LoadError? {
      var k :| since <= k < |s.rows| && node !in s.rows[k];
      assert node !in t.rows[k];
    }
  }

  lemma ReaderLater(s: State, t: State, rd: Reader)
    requires Extends(s, t) && BasesOk(s) && ReaderOk(s, rd)
    ensures ReaderOk(t, rd)
  {
    if rd.phase.Done? {
      OutcomeLater(s, t, rd.node, rd.phase.outcome, rd.since);
    }
  }

  /** Where a cached entry comes from. */
  lemma CacheOrigin(s: State, step: Step, key: Key)
    requires Enabled(s, step) && key in Next(s, step).cache
    ensures
      var c := Next(s, step).cache[key];
      if step.SetLands? && s.sets[step.id].key == key then c == Cached(s.sets[step.id].entry, s.clock.now)
      else key in s.cache && c == s.cache[key]
  {}

  /** Where a SET comes from. */
  lemma SetOrigin(s: State, step: Step, id: nat)
    requires Enabled(s, step) && id in Next(s, step).sets
    ensures
      var x := Next(s, step).sets[id];
      if step.FlightStore? && step.id == id then x == Sent(step.flight.key, s.flights[step.flight].entry)
      else id in s.sets && x == s.sets[id]
  {}

  lemma CacheStep(s: State, step: Step)
    requires Inv(s) && Enabled(s, step) && Extends(s, Next(s, step))
    ensures CacheOk(Next(s, step))
  {
    var t := Next(s, step);
    forall key | key in t.cache
      ensures KeyOk(t, key) && Genuine(t, key.node, t.cache[key].entry, t.bases[key.gen])
    {
      CacheOrigin(s, step, key);
      GenuineLater(s, t, key.node, t.cache[key].entry, s.bases[key.gen]);
    }
    SetsStep(s, step);
  }

  lemma SetsStep(s: State, step: Step)
    requires Inv(s) && Enabled(s, step) && Extends(s, Next(s, step))
    ensures forall id :: id in Next(s, step).sets ==> SentOk(Next(s, step), Next(s, step).sets[id])
  {
    var t := Next(s, step);
    forall id | id in t.sets
      ensures SentOk(t, t.sets[id])
    {
      var x := t.sets[id];
      SetOrigin(s, step, id);
      GenuineLater(s, t, x.key.node, x.entry, s.bases[x.key.gen]);
    }
  }

  lemma FlightsStep(s: State, step: Step)
    requires Inv(s) && Enabled(s, step) && Extends(s, Next(s, step))
    ensures FlightsOk(Next(s, step))
  {
    var t := Next(s, step);
    forall flight | flight in t.flights
      ensures KeyOk(t, flight.key)
      ensures !t.flights[flight].Loading? ==>
        Genuine(t, flight.key.node, t.flights[flight].entry, t.bases[flight.key.gen])
    {
      FlightKeyOk(s, step, flight);
      var key := flight.key;
      if !t.flights[flight].Loading? {
        FlightOrigin(s, step, flight);
        if step == FlightLoad(flight) {
          LoadGenuine(s, key.node, s.bases[key.gen]);
        }
        GenuineLater(s, t, key.node, t.flights[flight].entry, s.bases[key.gen]);
      }
    }
  }

  lemma FlightKeyOk(s: State, step: Step, flight: FlightKey)
    requires Shaped(s) && FlightsOk(s) && ReadersOk(s) && Enabled(s, step) && flight in Next(s, step).flights
    ensures KeyOk(s, flight.key)
  {
    if step.Enter? {
      assert ReaderOk(s, s.readers[step.r]);
    }
  }

  lemma ReadersStep(s: State, step: Step)
    requires Inv(s) && Enabled(s, step) && Extends(s, Next(s, step))
    ensures ReadersOk(Next(s, step))
  {
    var t := Next(s, step);
    forall r | r in t.readers
      ensures ReaderOk(t, t.readers[r])
    {
      if r in s.readers {
        ReaderStep(s, step, r);
      }
    }
  }

  lemma ReaderStep(s: State, step: Step, r: ReaderId)
    requires Inv(s) && Enabled(s, step) && Extends(s, Next(s, step)) && r in s.readers
    ensures r in Next(s, step).readers && ReaderOk(Next(s, step), Next(s, step).readers[r])
  {
    var t, rd := Next(s, step), s.readers[r];
    assert ReaderOk(s, rd);
    if t.readers[r] != rd {
      ReaderMoves(s, step, r);
    }
    ReaderLater(s, t, t.readers[r]);
  }

  lemma ReaderMoves(s: State, step: Step, r: ReaderId)
    requires BasesOk(s) && CacheOk(s) && FlightsOk(s)
    requires Enabled(s, step) && r in s.readers && ReaderOk(s, s.readers[r])
    requires Next(s, step).readers[r] != s.readers[r]
    ensures ReaderOk(s, Next(s, step).readers[r])
  {
    if step.FlightLoad? || step.FlightLand? {
      ReaderDelivered(s, step, r);
    } else if step.Lookup? || step.Bypass? {
      ReaderAnswered(s, step, r);
    } else {
      ReaderAdvances(s, step, r);
    }
  }

  lemma ReaderAdvances(s: State, step: Step, r: ReaderId)
    requires BasesOk(s) && (step.ReadGen? || step.Enter?)
    requires Enabled(s, step) && r == step.r && ReaderOk(s, s.readers[r])
    ensures ReaderOk(s, Next(s, step).readers[r])
  {}

  /** The reader's own step takes the answer from the cache or straight from the loader. */
  lemma ReaderAnswered(s: State, step: Step, r: ReaderId)
    requires BasesOk(s) && CacheOk(s) && (step.Lookup? || step.Bypass?)
    requires Enabled(s, step) && r == step.r && ReaderOk(s, s.readers[r])
    ensures ReaderOk(s, Next(s, step).readers[r])
  {
    if step.Bypass? {
      LoadGenuine(s, s.readers[r].node, s.readers[r].since);
    }
  }

  /** The reader waits on a flight that ends. */
  lemma ReaderDelivered(s: State, step: Step, r: ReaderId)
    requires BasesOk(s) && FlightsOk(s) && (step.FlightLoad? || step.FlightLand?)
    requires Enabled(s, step) && r in s.readers && ReaderOk(s, s.readers[r])
    ensures ReaderOk(s, Next(s, step).readers[r])
  {
    var rd := s.readers[r];
    if step.FlightLoad? && rd.phase == Waiting(step.flight) {
      LoadGenuine(s, rd.node, rd.since);
    }
  }

  lemma WritersStep(s: State, step: Step)
    requires Inv(s) && Enabled(s, step) && Extends(s, Next(s, step))
    ensures WritersOk(Next(s, step))
  {
    if step.Commit? {
      CommitWriters(s, step.w, step.table);
    } else if step.Bump? {
      BumpWriters(s, step.w, step.applied);
    } else {
      OtherStepsFrame(s, step);
    }
  }

  lemma OtherStepsFrame(s: State, step: Step)
    requires Enabled(s, step) && !step.Commit? && !step.Bump?
    ensures var t := Next(s, step); t.writers == s.writers && t.rows == s.rows && t.bases == s.bases && t.gen == s.gen
  {}

  lemma CommitWriters(s: State, w: WriterId, table: Table)
    requires Inv(s) && Enabled(s, Commit(w, table))
    ensures WritersOk(Next(s, Commit(w, table)))
  {
    var t := Next(s, Commit(w, table));
    assert t.writers[w].commit == Commits(t);
  }

  lemma BumpWriters(s: State, w: WriterId, applied: bool)
    requires Inv(s) && Enabled(s, Bump(w, applied))
    ensures WritersOk(Next(s, Bump(w, applied)))
  {
    var t := Next(s, Bump(w, applied));
    var x :| x in s.writers && s.writers[x].commit == Commits(s);
    assert t.writers[x].commit == Commits(t);
  }

  lemma InvStep(s: State, step: Step)
    requires Inv(s) && Enabled(s, step)
    ensures Inv(Next(s, step)) && Extends(s, Next(s, step))
  {
    StepExtends(s, step);
    CacheStep(s, step);
    FlightsStep(s, step);
    ReadersStep(s, step);
    WritersStep(s, step);
  }

  // ---------------------------------------------------------------------------------------------
  // Runs
  // ---------------------------------------------------------------------------------------------

  predicate Legal(s: State, steps: seq<Step>)
    decreases |steps|
  {
    steps == [] || (Enabled(s, steps[0]) && Legal(Next(s, steps[0]), steps[1..]))
  }

  function Run(s: State, steps: seq<Step>): State
    requires Legal(s, steps)
    decreases |steps|
  {
    if steps == [] then s else Run(Next(s, steps[0]), steps[1..])
  }

  ghost predicate Reachable(s: State) {
    exists table, ttl, steps :: Legal(Init(table, ttl), steps) && s == Run(Init(table, ttl), steps)
  }

  lemma {:induction false} RunInv(s: State, steps: seq<Step>)
    requires Inv(s) && Legal(s, steps)
    ensures Inv(Run(s, steps)) && Extends(s, Run(s, steps))
    decreases |steps|
  {
    if steps != [] {
      InvStep(s, steps[0]);
      RunInv(Next(s, steps[0]), steps[1..]);
    }
  }

  lemma ReachableInv(s: State)
    requires Reachable(s)
    ensures Inv(s)
  {
    var table, ttl, steps :| Legal(Init(table, ttl), steps) && s == Run(Init(table, ttl), steps);
    RunInv(Init(table, ttl), steps);
  }

  /** Reader `r`, if it has started, is entitled to at least `floor`; if not, it will be. */
  ghost predicate Entitled(s: State, r: ReaderId, floor: nat) {
    Shaped(s) && floor <= Floor(s) && (r in s.readers ==> s.readers[r].since >= floor)
  }

  lemma EntitledStep(s: State, step: Step, r: ReaderId, floor: nat)
    requires Enabled(s, step) && Extends(s, Next(s, step)) && Entitled(s, r, floor)
    ensures Entitled(Next(s, step), r, floor)
  {}

  lemma {:induction false} EntitledRun(s: State, steps: seq<Step>, r: ReaderId, floor: nat)
    requires Inv(s) && Legal(s, steps) && Entitled(s, r, floor)
    ensures Entitled(Run(s, steps), r, floor)
    decreases |steps|
  {
    if steps != [] {
      InvStep(s, steps[0]);
      EntitledStep(s, steps[0], r, floor);
      EntitledRun(Next(s, steps[0]), steps[1..], r, floor);
    }
  }

  predicate Answered(s: State, r: ReaderId) {
    r in s.readers && s.readers[r].phase.Done? && s.readers[r].phase.outcome.Returned?
  }

  /** `v` is the database row of `node` now. */
  predicate IsCurrentRow(s: State, node: NodeId, v: NodeMeta) {
    s.rows != [] && node in s.rows[|s.rows| - 1] && s.rows[|s.rows| - 1][node] == v
  }

  /** Reader `r` has returned a row of its node as it was at or after commit `m`. */
  ghost predicate ReturnedSince(s: State, r: ReaderId, m: nat) {
    && Answered(s, r)
    && Genuine(s, s.readers[r].node, s.readers[r].phase.outcome.entry, m)
  }

  /**
   No stale read: in every interleaving, a read that starts after the bump of a mutation took effect
   returns the row as of that mutation or a later one. Other writers' bumps may be late or lost.
   */
  lemma NoStaleRead(s: State, steps: seq<Step>, w: WriterId, r: ReaderId)
    requires Reachable(s) && Legal(s, steps)
    requires w in s.writers && s.writers[w].Finished? && s.writers[w].bumped
    requires r !in s.readers
    ensures
      var t := Run(s, steps);
      Answered(t, r) ==> ReturnedSince(t, r, s.writers[w].commit)
  {
    ReachableInv(s);
    EntitledAnswer(s, steps, r);
    assert s.writers[w].commit <= Floor(s);
  }

  /** A reader that starts from now on sees at least what the live generation stands for now. */
  lemma EntitledAnswer(s: State, steps: seq<Step>, r: ReaderId)
    requires Reachable(s) && Legal(s, steps) && r !in s.readers && Shaped(s)
    ensures
      var t := Run(s, steps);
      && (Answered(t, r) ==> ReturnedSince(t, r, Floor(s)))
      && (r in t.readers && t.readers[r].phase.Done? ==>
            OutcomeOk(t, t.readers[r].node, t.readers[r].phase.outcome, Floor(s)))
  {
    ReachableInv(s);
    RunInv(s, steps);
    EntitledRun(s, steps, r, Floor(s));
    var t := Run(s, steps);
    if r in t.readers {
      assert ReaderOk(t, t.readers[r]);
    }
  }

  /** Every mutation so far has been committed and its bump took effect. */
  ghost predicate AllBumped(s: State) {
    forall w :: w in s.writers ==> s.writers[w].Finished? && s.writers[w].bumped
  }

  /** No mutation has committed since the last bump that took effect. */
  predicate Settled(s: State) {
    Shaped(s) && Floor(s) == Commits(s)
  }

  lemma AllBumpedSettles(s: State)
    requires Reachable(s) && AllBumped(s)
    ensures Settled(s)
  {
    ReachableInv(s);
    if Commits(s) > 0 {
      var w :| w in s.writers && s.writers[w].commit == Commits(s);
    }
  }

  /** In a settled state, whatever is cached under the live generation is the database row. */
  lemma LiveEntriesAreCurrent(s: State, key: Key)
    requires Reachable(s) && Settled(s)
    requires key in s.cache && key.gen == s.gen
    ensures IsCurrentRow(s, key.node, s.cache[key].entry.value)
  {
    ReachableInv(s);
  }

  /**
   A reader that starts then is answered with the database row, and with an error if and only if there is
   none, as long as no further mutation commits.
   */
  lemma ReadsAreCurrent(s: State, steps: seq<Step>, r: ReaderId)
    requires Reachable(s) && Settled(s) && Legal(s, steps) && r !in s.readers
    requires Run(s, steps).rows == s.rows
    ensures
      var t := Run(s, steps);
      r in t.readers && t.readers[r].phase.Done? ==>
        match t.readers[r].phase.outcome
        case Returned(e) => IsCurrentRow(t, t.readers[r].node, e.value)
        case LoadError => t.readers[r].node !in t.rows[|t.rows| - 1]
  {
    EntitledAnswer(s, steps, r);
    var t := Run(s, steps);
    if Answered(t, r) {
      LatestIsCurrent(t, t.readers[r].node, t.readers[r].phase.outcome.entry, Commits(s));
    }
  }

  lemma LatestIsCurrent(s: State, node: NodeId, e: Entry, since: nat)
    requires s.rows != [] && Genuine(s, node, e, since) && since == Commits(s)
    ensures IsCurrentRow(s, node, e.value)
  {}

  /** The hypothesis is needed: when a bump is lost, the live generation can keep a stale entry. */
  lemma LostBumpLeavesStaleEntry(before: NodeMeta, after: NodeMeta, ttl: nat) returns (s: State, key: Key)
    requires before != after && ttl > 0
    ensures Reachable(s) && s.rows != [] && Readable(s, key) && key.gen == s.gen
    ensures forall w :: w in s.writers ==> s.writers[w].Finished?
    ensures key.node in s.rows[|s.rows| - 1] && !IsCurrentRow(s, key.node, s.cache[key].entry.value)
  {
    s, key := StaleBeyondTtl(before, after, ttl, 0);
  }

  // ---------------------------------------------------------------------------------------------
  // How stale a readable entry can be
  // ---------------------------------------------------------------------------------------------

  /** The entry's commit was the latest one when it was loaded. */
  ghost predicate Timely(s: State, e: Entry) {
    var commits := s.clock.commits;
    && e.stamp < |commits| && commits[e.stamp] <= e.loadedAt <= s.clock.now
    && (e.stamp + 1 < |commits| ==> e.loadedAt <= commits[e.stamp + 1])
  }

  ghost predicate ClockOk(s: State) {
    |s.clock.commits| == |s.rows| && forall i :: 0 <= i < |s.clock.commits| ==> s.clock.commits[i] <= s.clock.now
  }

  ghost predicate TimesOk(s: State) {
    && ClockOk(s)
    && (forall flight :: flight in s.flights && !s.flights[flight].Loading? ==> Timely(s, s.flights[flight].entry))
    && (forall id :: id in s.sets ==> Timely(s, s.sets[id].entry))
    && (forall key :: key in s.cache ==>
          Timely(s, s.cache[key].entry) && s.cache[key].entry.loadedAt <= s.cache[key].setAt <= s.clock.now)
  }

  lemma TimelyStep(s: State, step: Step, e: Entry)
    requires Enabled(s, step) && ClockOk(s) && Timely(s, e)
    ensures Timely(Next(s, step), e)
  {}

  lemma ClockStep(s: State, step: Step)
    requires Enabled(s, step) && ClockOk(s)
    ensures ClockOk(Next(s, step)) && s.clock.now <= Next(s, step).clock.now
  {}

  lemma LoadTimely(s: State, node: NodeId)
    requires Shaped(s) && ClockOk(s)
    ensures Load(s, node).Returned? ==> Timely(s, Load(s, node).entry)
  {}

  lemma TimesStep(s: State, step: Step)
    requires TimesOk(s) && Enabled(s, step)
    ensures TimesOk(Next(s, step))
  {
    ClockStep(s, step);
    FlightTimes(s, step);
    SetTimes(s, step);
    CacheTimes(s, step);
  }

  lemma FlightTimes(s: State, step: Step)
    requires TimesOk(s) && Enabled(s, step)
    ensures
      var t := Next(s, step);
      forall flight :: flight in t.flights && !t.flights[flight].Loading? ==> Timely(t, t.flights[flight].entry)
  {
    var t := Next(s, step);
    forall flight | flight in t.flights && !t.flights[flight].Loading?
      ensures Timely(t, t.flights[flight].entry)
    {
      FlightOrigin(s, step, flight);
      if step == FlightLoad(flight) {
        LoadTimely(s, flight.key.node);
      }
      TimelyStep(s, step, t.flights[flight].entry);
    }
  }

  /** Where the entry of a flight comes from. */
  lemma FlightOrigin(s: State, step: Step, flight: FlightKey)
    requires Enabled(s, step) && flight in Next(s, step).flights && !Next(s, step).flights[flight].Loading?
    ensures
      var e := Next(s, step).flights[flight].entry;
      if step == FlightLoad(flight) then Load(s, flight.key.node) == Returned(e)
      else flight in s.flights && !s.flights[flight].Loading? && s.flights[flight].entry == e
  {}

  lemma SetTimes(s: State, step: Step)
    requires TimesOk(s) && Enabled(s, step)
    ensures forall id :: id in Next(s, step).sets ==> Timely(Next(s, step), Next(s, step).sets[id].entry)
  {
    var t := Next(s, step);
    forall id | id in t.sets
      ensures Timely(t, t.sets[id].entry)
    {
      SetOrigin(s, step, id);
      TimelyStep(s, step, t.sets[id].entry);
    }
  }

  lemma CacheTimes(s: State, step: Step)
    requires TimesOk(s) && Enabled(s, step)
    ensures
      var t := Next(s, step);
      forall key :: key in t.cache ==>
        Timely(t, t.cache[key].entry) && t.cache[key].entry.loadedAt <= t.cache[key].setAt <= t.clock.now
  {
    var t := Next(s, step);
    ClockStep(s, step);
    forall key | key in t.cache
      ensures Timely(t, t.cache[key].entry) && t.cache[key].entry.loadedAt <= t.cache[key].setAt <= t.clock.now
    {
      CacheOrigin(s, step, key);
      TimelyStep(s, step, t.cache[key].entry);
    }
  }

  lemma {:induction false} TimesRun(s: State, steps: seq<Step>)
    requires TimesOk(s) && Legal(s, steps)
    ensures TimesOk(Run(s, steps))
    decreases |steps|
  {
    if steps != [] {
      TimesStep(s, steps[0]);
      TimesRun(Next(s, steps[0]), steps[1..]);
    }
  }

  /** How long ago the first commit was made that the entry does not show. */
  function Age(s: State, e: Entry): int {
    if e.stamp + 1 < |s.clock.commits| then s.clock.now - s.clock.commits[e.stamp + 1] else 0
  }

  /**
   Whatever bumps are lost, a hit returns the row as it was less than the time to live, plus the time from
   the entry's load to its SET, ago.
   */
  lemma StalenessBounded(s: State, key: Key)
    requires Reachable(s) && Readable(s, key)
    ensures
      var c := s.cache[key];
      && Genuine(s, key.node, c.entry, 0)
      && Age(s, c.entry) < s.clock.ttl + (c.setAt - c.entry.loadedAt)
  {
    ReachableInv(s);
    var table, ttl, steps :| Legal(Init(table, ttl), steps) && s == Run(Init(table, ttl), steps);
    TimesRun(Init(table, ttl), steps);
  }

  /** The time to live alone is no bound: the gap between load and SET adds to it in full. */
  lemma StaleBeyondTtl(before: NodeMeta, after: NodeMeta, ttl: nat, gap: nat) returns (s: State, key: Key)
    requires before != after && ttl > 0
    ensures Reachable(s) && s.clock.ttl == ttl && Readable(s, key) && key.gen == s.gen
    ensures forall w :: w in s.writers ==> s.writers[w].Finished?
    ensures s.rows != [] && key.node in s.rows[|s.rows| - 1]
    ensures !IsCurrentRow(s, key.node, s.cache[key].entry.value)
    ensures Age(s, s.cache[key].entry) == ttl - 1 + gap
  {
    key := Key(0, "n");
    s := LoadedThenCommitted(before, after, ttl);
    s := LandsLate(s, 0, gap, ttl - 1);
  }

  /** A SET lands `gap` later, and some more time passes. */
  lemma LandsLate(s: State, id: nat, gap: nat, wait: nat) returns (t: State)
    requires Reachable(s) && Shaped(s) && id in s.sets
    ensures Reachable(t) && t.rows == s.rows && t.gen == s.gen && t.writers == s.writers
    ensures t.cache == s.cache[s.sets[id].key := Cached(s.sets[id].entry, s.clock.now + gap)]
    ensures t.clock == s.clock.(now := s.clock.now + gap + wait)
  {
    t := ReachTick(s, gap);
    t := ReachStep(t, SetLands(id));
    t := ReachTick(t, wait);
  }

  lemma ReachTick(s: State, d: nat) returns (t: State)
    requires Reachable(s) && Shaped(s)
    ensures Reachable(t) && t == s.(clock := s.clock.(now := s.clock.now + d))
  {
    t := ReachStep(s, Tick(d));
  }

  /** A SET is on its way when a mutation commits whose bump is lost. */
  lemma LoadedThenCommitted(before: NodeMeta, after: NodeMeta, ttl: nat) returns (s: State)
    ensures Reachable(s) && s.clock == Clock(ttl, 0, [0, 0])
    ensures s.sets == map[0 := Sent(Key(0, "n"), Entry(before, 0, 0))]
    ensures s.rows == [map["n" := before], map["n" := after]] && s.gen == 0 && s.bases == [0]
    ensures s.writers == map[0 := Finished(1, false)]
  {
    s := SetSent(before, ttl);
    s := LostMutation(s, 0, map["n" := after]);
  }

  lemma LostMutation(s: State, w: WriterId, table: Table) returns (t: State)
    requires Reachable(s) && Shaped(s) && w !in s.writers
    ensures Reachable(t)
    ensures t == s.(rows := s.rows + [table], writers := s.writers[w := Finished(|s.rows|, false)],
                    clock := s.clock.(commits := s.clock.commits + [s.clock.now]))
  {
    t := ReachCommit(s, w, table);
    t := ReachLostBump(t, w);
    assert t.writers == s.writers[w := Finished(|s.rows|, false)];
  }

  lemma ReachCommit(s: State, w: WriterId, table: Table) returns (t: State)
    requires Reachable(s) && Shaped(s) && w !in s.writers
    ensures Reachable(t)
    ensures t == s.(rows := s.rows + [table], writers := s.writers[w := Committed(|s.rows|)],
                    clock := s.clock.(commits := s.clock.commits + [s.clock.now]))
  {
    t := ReachStep(s, Commit(w, table));
  }

  lemma ReachLostBump(s: State, w: WriterId) returns (t: State)
    requires Reachable(s) && Shaped(s) && w in s.writers && s.writers[w].Committed?
    ensures Reachable(t) && t == s.(writers := s.writers[w := Finished(s.writers[w].commit, false)])
  {
    t := ReachStep(s, Bump(w, false));
  }

  /** One reader's miss loads the row and sends it to the cache. */
  lemma SetSent(row: NodeMeta, ttl: nat) returns (s: State)
    ensures Reachable(s) && s.clock == Clock(ttl, 0, [0]) && s.sets == map[0 := Sent(Key(0, "n"), Entry(row, 0, 0))]
    ensures s.rows == [map["n" := row]] && s.gen == 0 && s.writers == map[] && s.bases == [0]
  {
    var flight := FlightKey(0, Key(0, "n"));
    s := MissedReader(row, ttl);
    s := ReachStep(s, Enter(0));
    s := ReachStep(s, FlightLoad(flight));
    s := ReachStep(s, FlightStore(flight, 0));
  }

  lemma MissedReader(row: NodeMeta, ttl: nat) returns (s: State)
    ensures Reachable(s) && s.rows == [map["n" := row]] && s.gen == 0 && s.writers == map[] && s.bases == [0]
    ensures s.flights == map[] && s.cache == map[] && s.sets == map[] && s.clock == Clock(ttl, 0, [0])
    ensures 0 in s.readers && s.readers[0] == Reader(0, "n", 0, Missed(0))
  {
    s := Init(map["n" := row], ttl);
    assert Run(s, []) == s;
    s := ReachStep(s, Begin(0, 0, "n"));
    s := ReachStep(s, ReadGen(0));
    s := ReachStep(s, Lookup(0, false));
  }

  lemma ReachStep(s: State, step: Step) returns (t: State)
    requires Reachable(s) && Enabled(s, step)
    ensures Reachable(t) && t == Next(s, step)
  {
    var table, ttl, steps :| Legal(Init(table, ttl), steps) && s == Run(Init(table, ttl), steps);
    RunSnoc(Init(table, ttl), steps, step);
    t := Next(s, step);
  }

  lemma {:induction false} RunSnoc(s: State, steps: seq<Step>, step: Step)
    requires Legal(s, steps) && Enabled(Run(s, steps), step)
    ensures Legal(s, steps + [step]) && Run(s, steps + [step]) == Next(Run(s, steps), step)
    decreases |steps|
  {
    if steps == [] {
      assert [step][1..] == [];
    } else {
      assert (steps + [step])[1..] == steps[1..] + [step];
      RunSnoc(Next(s, steps[0]), steps[1..], step);
    }
  }
}
