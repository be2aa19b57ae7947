/** How many rows sweeps remove in how much time, and how old those rows are. */
module SweepLaws {
  import opened Options
  import opened Sets
  import opened Registry
  import opened RegistryProtocol
  import CommitLaws

  // ---------------------------------------------------------------------------------------------
  // The rate over time
  // ---------------------------------------------------------------------------------------------

  /** A sweep removes a row with this step, and the collector is told so. */
  predicate Takes(l: Limits, s: State, step: Step)
    requires Enabled(l, s, step)
  {
    && step.HardDeleteRow? && step.acked
    && s.sweepers[step.w].hash in s.tables.blocks
    && s.sweepers[step.w].hash !in Next(l, s, step).tables.blocks
  }

  function Removals(l: Limits, s: State, steps: seq<Step>): nat
    requires Legal(l, s, steps)
    decreases |steps|
  {
    if steps == [] then 0
    else (if Takes(l, s, steps[0]) then 1 else 0) + Removals(l, Next(l, s, steps[0]), steps[1..])
  }

  /** The step starts a sweep more than an hour after the counter was last reset. */
  predicate Resets(s: State, step: Step) {
    step.SweepStart? && s.now > s.rateResetAt + 3600
  }

  function ResetCount(l: Limits, s: State, steps: seq<Step>): nat
    requires Legal(l, s, steps)
    decreases |steps|
  {
    if steps == [] then 0
    else (if Resets(s, steps[0]) then 1 else 0) + ResetCount(l, Next(l, s, steps[0]), steps[1..])
  }

  /** What sweeps may remove between two resets. */
  function Quota(l: Limits, sweepers: nat): int {
    l.maxBlocksPerHour + sweepers - 1
  }

  /** The rows removed and acknowledged since the last reset. */
  function SinceReset(s: State): int {
    s.removed - s.lost
  }

  lemma SinceResetBounded(l: Limits, s: State)
    requires Inv(l, s)
    ensures SinceReset(s) <= Quota(l, |s.sweepers|)
  {
    assert Uncounted(s.sweepers) <= Busy(s.sweepers);
    SubsetSize(Uncounted(s.sweepers), Busy(s.sweepers));
  }

  lemma AccountStep(l: Limits, s: State, step: Step)
    requires Inv(l, s) && Enabled(l, s, step) && SinceReset(s) >= 0
    ensures
      var t := Next(l, s, step);
      && SinceReset(t) >= 0
      && SinceReset(t) == if Resets(s, step) then 0 else SinceReset(s) + if Takes(l, s, step) then 1 else 0
  {}

  lemma {:induction false} AccountRun(l: Limits, s: State, steps: seq<Step>)
    requires Inv(l, s) && Legal(l, s, steps) && SinceReset(s) >= 0
    ensures
      var t := Run(l, s, steps);
      Removals(l, s, steps) + SinceReset(s) <= SinceReset(t) + ResetCount(l, s, steps) * Quota(l, |s.sweepers|)
    decreases |steps|
  {
    if steps != [] {
      var s' := Next(l, s, steps[0]);
      AccountStep(l, s, steps[0]);
      SinceResetBounded(l, s);
      InvStep(l, s, steps[0]);
      assert |s'.sweepers| == |s.sweepers| by {
        assert |s'.sweepers.Keys| == |s.sweepers.Keys|;
      }
      AccountRun(l, s', steps[1..]);
      OneMore(ResetCount(l, s', steps[1..]), Quota(l, |s.sweepers|));
    }
  }

  lemma OneMore(n: nat, q: int)
    ensures (n + 1) * q == n * q + q && (0 + n) * q == n * q
  {}

  lemma ClockStep(l: Limits, s: State, step: Step)
    requires Enabled(l, s, step)
    ensures
      var t := Next(l, s, step);
      && s.now <= t.now && (s.rateResetAt <= s.now ==> t.rateResetAt <= t.now)
      && t.rateResetAt == if Resets(s, step) then s.now else s.rateResetAt
  {}

  /** Resets are more than an hour apart. */
  lemma {:induction false} ResetsApart(l: Limits, s: State, steps: seq<Step>)
    requires Legal(l, s, steps) && s.rateResetAt <= s.now
    ensures 3601 * ResetCount(l, s, steps) <= Run(l, s, steps).now - s.rateResetAt
    decreases |steps|
  {
    if steps != [] {
      ClockStep(l, s, steps[0]);
      ResetsApart(l, Next(l, s, steps[0]), steps[1..]);
    }
  }

  lemma {:induction false} ResetsInTime(l: Limits, s: State, steps: seq<Step>)
    requires Legal(l, s, steps) && s.rateResetAt <= s.now
    ensures Run(l, s, steps).now >= s.now
    ensures 3601 * (ResetCount(l, s, steps) - 1) <= Run(l, s, steps).now - s.now
    decreases |steps|
  {
    if steps != [] {
      var s' := Next(l, s, steps[0]);
      ClockStep(l, s, steps[0]);
      ResetsInTime(l, s', steps[1..]);
      if Resets(s, steps[0]) {
        ResetsApart(l, s', steps[1..]);
      }
    }
  }

  ghost predicate Accounted(s: State) {
    SinceReset(s) >= 0 && s.rateResetAt <= s.now
  }

  lemma {:induction false} AccountedRun(l: Limits, s: State, steps: seq<Step>)
    requires Inv(l, s) && Legal(l, s, steps) && Accounted(s)
    ensures Accounted(Run(l, s, steps))
    decreases |steps|
  {
    if steps != [] {
      AccountStep(l, s, steps[0]);
      ClockStep(l, s, steps[0]);
      InvStep(l, s, steps[0]);
      AccountedRun(l, Next(l, s, steps[0]), steps[1..]);
    }
  }

  lemma ReachableAccounted(l: Limits, s: State, sweepers: set<WorkerId>)
    requires l.Valid() && Reachable(l, s, sweepers)
    ensures Accounted(s)
  {
    var now, steps :| Legal(l, Init(now, sweepers), steps) && s == Run(l, Init(now, sweepers), steps);
    InitInv(l, now, sweepers);
    AccountedRun(l, Init(now, sweepers), steps);
  }

  lemma QuotaAtEnd(l: Limits, s: State, steps: seq<Step>)
    requires Inv(l, s) && Legal(l, s, steps)
    ensures SinceReset(Run(l, s, steps)) <= Quota(l, |s.sweepers|)
  {
    RunInv(l, s, steps);
    var t := Run(l, s, steps);
    SinceResetBounded(l, t);
    assert |t.sweepers.Keys| == |s.sweepers.Keys|;
  }

  lemma MoreTimesMore(a: int, b: int, q: int)
    requires a <= b && 0 <= q
    ensures a * q <= b * q
  {}

  /**
   Over any stretch of any run, `n` sweepers remove at most the limit plus n - 1 rows for every whole hour the
   stretch lasts, and twice that more: one hour's allowance may be used up just before a reset and the next
   one's just after it.
   */
  lemma HourlyBound(l: Limits, s: State, sweepers: set<WorkerId>, steps: seq<Step>)
    requires l.Valid() && Reachable(l, s, sweepers) && Legal(l, s, steps)
    ensures
      var hours := (Run(l, s, steps).now - s.now) / 3601;
      Removals(l, s, steps) <= (hours + 2) * (l.maxBlocksPerHour + |sweepers| - 1)
  {
    var t, q := Run(l, s, steps), Quota(l, |sweepers|);
    ReachableInv(l, s, sweepers);
    ReachableAccounted(l, s, sweepers);
    AccountRun(l, s, steps);
    QuotaAtEnd(l, s, steps);
    ResetsInTime(l, s, steps);
    var n := ResetCount(l, s, steps);
    OneMore(n, q);
    MoreTimesMore(n + 1, (t.now - s.now) / 3601 + 2, q);
  }

  // ---------------------------------------------------------------------------------------------
  // The factor of two is real
  // ---------------------------------------------------------------------------------------------

  /** Some run from `s` to `t` removes `n` rows. */
  ghost predicate Stretch(l: Limits, s: State, t: State, n: nat) {
    exists steps :: Legal(l, s, steps) && t == Run(l, s, steps) && Removals(l, s, steps) == n
  }

  lemma {:induction false} RemovalsSnoc(l: Limits, s: State, steps: seq<Step>, step: Step)
    requires Legal(l, s, steps) && Enabled(l, Run(l, s, steps), step)
    requires Legal(l, s, steps + [step])
    ensures Removals(l, s, steps + [step]) ==
      Removals(l, s, steps) + if Takes(l, Run(l, s, steps), step) then 1 else 0
    decreases |steps|
  {
    if steps == [] {
      assert [step][1..] == [];
    } else {
      assert (steps + [step])[1..] == steps[1..] + [step];
      RemovalsSnoc(l, Next(l, s, steps[0]), steps[1..], step);
    }
  }

  lemma StretchOn(l: Limits, s: State, t: State, n: nat, step: Step) returns (u: State)
    requires Stretch(l, s, t, n) && Enabled(l, t, step)
    ensures u == Next(l, t, step) && Stretch(l, s, u, n + if Takes(l, t, step) then 1 else 0)
  {
    var steps :| Legal(l, s, steps) && t == Run(l, s, steps) && Removals(l, s, steps) == n;
    RunSnoc(l, s, steps, step);
    RemovalsSnoc(l, s, steps, step);
    u := Next(l, t, step);
  }

  /** The blocks from `j` to `m` are there to be swept. */
  ghost predicate Pile(l: Limits, s: State, j: nat, m: nat) {
    forall i :: j <= i < m ==> Orphaned(s, l, Name(i))
  }

  lemma PileStays(l: Limits, s: State, t: State, j: nat, m: nat)
    requires Pile(l, s, j, m) && t.tables == s.tables && t.now >= s.now
    ensures Pile(l, t, j, m)
  {
    forall i | j <= i < m
      ensures Orphaned(t, l, Name(i))
    {
      assert Orphaned(s, l, Name(i));
    }
  }

  lemma PileShrinks(l: Limits, s: State, t: State, j: nat, m: nat)
    requires Pile(l, s, j, m) && j < m && t.tables.blocks == s.tables.blocks - {Name(j)} && t.now == s.now
    ensures Pile(l, t, j + 1, m)
  {
    forall i | j + 1 <= i < m
      ensures Orphaned(t, l, Name(i))
    {
      assert Orphaned(s, l, Name(i)) && |Name(i)| != |Name(j)|;
    }
  }

  /** A sweeper takes the row at the head of its queue. */
  lemma TakeRow(l: Limits, s: State, t: State, n: nat, w: WorkerId, j: nat, k: nat, m: nat) returns (u: State)
    requires Stretch(l, s, t, n) && w in t.sweepers && j < k <= m && t.sweepers[w] == Ready(Names(j, k))
    requires Pile(l, t, j, m) && t.deletionCount < l.maxBlocksPerHour
    ensures Stretch(l, s, u, n + 1) && w in u.sweepers && u.sweepers[w] == Ready(Names(j + 1, k))
    ensures Pile(l, u, j + 1, m)
    ensures u.now == t.now && u.rateResetAt == t.rateResetAt && u.deletionCount == t.deletionCount + 1
  {
    assert Orphaned(t, l, Name(j)) && Names(j, k)[0] == Name(j) && Names(j, k)[1..] == Names(j + 1, k);
    u := StretchOn(l, s, t, n, RateCheck(w));
    u := StretchOn(l, s, u, n, DoubleCheck(w));
    u := TakeDoomed(l, s, u, n, w, Name(j), Names(j + 1, k));
    PileShrinks(l, t, u, j, m);
  }

  lemma TakeDoomed(l: Limits, s: State, t: State, n: nat, w: WorkerId, h: Hash, q: seq<Hash>) returns (u: State)
    requires Stretch(l, s, t, n) && w in t.sweepers && t.sweepers[w] == Doomed(h, q) && Deletes(t, h)
    ensures Stretch(l, s, u, n + 1) && w in u.sweepers && u.sweepers[w] == Ready(q)
    ensures u.tables.blocks == t.tables.blocks - {h}
    ensures u.now == t.now && u.rateResetAt == t.rateResetAt && u.deletionCount == t.deletionCount + 1
  {
    u := StretchOn(l, s, t, n, HardDeleteRow(w, true));
    u := StretchOn(l, s, u, n + 1, CountDeletion(w));
  }

  lemma {:induction false} TakeRows(l: Limits, s: State, t: State, n: nat, w: WorkerId, j: nat, k: nat, m: nat)
    returns (u: State)
    requires Stretch(l, s, t, n) && w in t.sweepers && j <= k <= m && t.sweepers[w] == Ready(Names(j, k))
    requires Pile(l, t, j, m) && t.deletionCount + (k - j) <= l.maxBlocksPerHour
    ensures Stretch(l, s, u, n + (k - j)) && w in u.sweepers && u.sweepers[w] == Ready([]) && Pile(l, u, k, m)
    ensures u.now == t.now && u.rateResetAt == t.rateResetAt
    decreases k - j
  {
    u := t;
    if j < k {
      u := TakeRow(l, s, t, n, w, j, k, m);
      u := TakeRows(l, s, u, n + 1, w, j + 1, k, m);
    } else {
      assert Names(j, k) == [];
    }
  }

  /** A whole sweep of the blocks from `j` to `k`. */
  lemma SweepRange(l: Limits, s: State, t: State, n: nat, w: WorkerId, j: nat, k: nat, m: nat) returns (u: State)
    requires Stretch(l, s, t, n) && w in t.sweepers && j <= k <= m && t.sweepers[w] == Idle && Pile(l, t, j, m)
    requires k - j <= l.maxBlocksPerHour && (t.deletionCount == 0 || t.now > t.rateResetAt + HOUR)
    ensures Stretch(l, s, u, n + (k - j)) && w in u.sweepers && u.sweepers[w] == Idle && Pile(l, u, k, m)
    ensures u.now == t.now && u.rateResetAt == if t.now > t.rateResetAt + HOUR then t.now else t.rateResetAt
  {
    u := StretchOn(l, s, t, n, SweepStart(w));
    PileStays(l, t, u, j, m);
    assert forall h :: h in Names(j, k) ==> Orphaned(u, l, h);
    var v := StretchOn(l, s, u, n, FindOrphans(w, Names(j, k)));
    PileStays(l, u, v, j, m);
    u := TakeRows(l, s, v, n, w, j, k, m);
    v := StretchOn(l, s, u, n + (k - j), RateCheck(w));
    PileStays(l, u, v, k, m);
    u := v;
  }

  /** One sweeper, `m` old orphans, and a counter that was reset exactly an hour ago. */
  lemma HourAfterReset(l: Limits, w: WorkerId, m: nat) returns (s: State)
    requires l.Valid()
    ensures Reachable(l, s, {w}) && w in s.sweepers && s.sweepers[w] == Idle && Pile(l, s, 0, m)
    ensures s.deletionCount == 0 && s.now == s.rateResetAt + HOUR && s.tables.manifest == map[]
  {
    var a := ManyOrphans(l, {w}, m);
    ReachableAccounted(l, a, {w});
    var age := if l.safetyWindow < 0 then 1 else l.safetyWindow + 1;
    var b := ReachStep(l, a, {w}, Tick(age + HOUR + 1));
    OldOrphans(l, a, b, {w}, m);
    var c := EmptySweep(l, b, {w}, w);
    PileStays(l, b, c, 0, m);
    s := ReachStep(l, c, {w}, Tick(HOUR));
    PileStays(l, c, s, 0, m);
  }

  lemma EmptySweep(l: Limits, s: State, sweepers: set<WorkerId>, w: WorkerId) returns (t: State)
    requires Reachable(l, s, sweepers) && w in s.sweepers && s.sweepers[w] == Idle && s.now > s.rateResetAt + HOUR
    ensures Reachable(l, t, sweepers) && w in t.sweepers && t.sweepers[w] == Idle
    ensures t.tables == s.tables && t.now == s.now == t.rateResetAt && t.deletionCount == 0
  {
    t := ReachStep(l, s, sweepers, SweepStart(w));
    t := ReachStep(l, t, sweepers, FindOrphans(w, []));
    t := ReachStep(l, t, sweepers, RateCheck(w));
  }

  /** For every limit, a single sweeper can remove twice that many rows within a second. */
  lemma TwiceTheLimit(l: Limits, w: WorkerId) returns (s: State, t: State)
    requires l.Valid()
    ensures Reachable(l, s, {w}) && Stretch(l, s, t, 2 * l.maxBlocksPerHour) && t.now == s.now + 1
  {
    var n := l.maxBlocksPerHour;
    s := HourAfterReset(l, w, 2 * n);
    assert Run(l, s, []) == s && Removals(l, s, []) == 0;
    t := SweepRange(l, s, s, 0, w, 0, n, 2 * n);
    var u := StretchOn(l, s, t, n, Tick(1));
    PileStays(l, t, u, n, 2 * n);
    t := SweepRange(l, s, u, n, w, n, 2 * n, 2 * n);
  }

  // ---------------------------------------------------------------------------------------------
  // The safety window
  // ---------------------------------------------------------------------------------------------

  /** A row keeps the time of its creation for as long as it is there. */
  lemma BirthKept(l: Limits, s: State, step: Step, h: Hash)
    requires Enabled(l, s, step) && h in s.tables.blocks && h in Next(l, s, step).tables.blocks
    ensures Next(l, s, step).tables.blocks[h].createdAt == s.tables.blocks[h].createdAt
  {
    if step.CommitFile? {
      var r := Commit(s.sessions, s.tables, s.now, step.tenant, step.sid, step.vid, step.blocks);
      if r.Committed? {
        CommitLaws.CommitMeans(s.sessions, s.tables, s.now, step.tenant, step.sid, step.vid, step.blocks);
      }
    } else if step.RemoveVersion? {
      if DeleteEntries(s.tables, step.keys).Some? {
        CommitLaws.DeleteMeans(s.tables, step.keys);
      }
    }
  }

  /** The row of `h` is there from the first state of the run to the last. */
  predicate StandsThroughout(l: Limits, s: State, steps: seq<Step>, h: Hash)
    requires Legal(l, s, steps)
    decreases |steps|
  {
    h in s.tables.blocks && (steps == [] || StandsThroughout(l, Next(l, s, steps[0]), steps[1..], h))
  }

  lemma {:induction false} BirthRun(l: Limits, s: State, steps: seq<Step>, h: Hash)
    requires Legal(l, s, steps) && StandsThroughout(l, s, steps, h)
    ensures
      var rows := Run(l, s, steps).tables.blocks;
      h in rows && rows[h].createdAt == s.tables.blocks[h].createdAt
    decreases |steps|
  {
    if steps != [] {
      BirthKept(l, s, steps[0], h);
      BirthRun(l, Next(l, s, steps[0]), steps[1..], h);
    }
  }

  /** Between sweeps, or in one that has nothing in hand but these blocks. */
  predicate Among(p: Sweep, hashes: seq<Hash>) {
    match p
    case Idle => true
    case Started => false
    case Ready(q) => InList(q, hashes)
    case Armed(h, q) => h in hashes && InList(q, hashes)
    case Doomed(h, q) => h in hashes && InList(q, hashes)
    case Deleted(_, q) => InList(q, hashes)
  }

  predicate InList(q: seq<Hash>, hashes: seq<Hash>) {
    forall i :: 0 <= i < |q| ==> q[i] in hashes
  }

  lemma AmongStep(l: Limits, s: State, step: Step, w: WorkerId, hashes: seq<Hash>)
    requires Enabled(l, s, step) && step != SweepStart(w) && w in s.sweepers && Among(s.sweepers[w], hashes)
    ensures w in Next(l, s, step).sweepers && Among(Next(l, s, step).sweepers[w], hashes)
  {}

  lemma {:induction false} AmongRun(l: Limits, s: State, steps: seq<Step>, w: WorkerId, hashes: seq<Hash>)
    requires Legal(l, s, steps) && SweepStart(w) !in steps && w in s.sweepers && Among(s.sweepers[w], hashes)
    ensures w in Run(l, s, steps).sweepers && Among(Run(l, s, steps).sweepers[w], hashes)
    decreases |steps|
  {
    if steps != [] {
      AmongStep(l, s, steps[0], w, hashes);
      AmongRun(l, Next(l, s, steps[0]), steps[1..], w, hashes);
    }
  }

  /**
   A sweep only ever deletes blocks that it listed, and a row that has been there since then was created
   before the safety window, whatever else has happened in between.
   */
  lemma SafetyWindowHolds(l: Limits, s: State, w: WorkerId, hashes: seq<Hash>, steps: seq<Step>, h: Hash)
    requires Enabled(l, s, FindOrphans(w, hashes))
    requires
      var listed := Next(l, s, FindOrphans(w, hashes));
      && Legal(l, listed, steps) && SweepStart(w) !in steps
      && var t := Run(l, listed, steps);
        w in t.sweepers && t.sweepers[w].Doomed? && t.sweepers[w].hash == h
    ensures h in hashes
    ensures
      var listed := Next(l, s, FindOrphans(w, hashes));
      StandsThroughout(l, listed, steps, h) ==>
        && h in Run(l, listed, steps).tables.blocks
        && Run(l, listed, steps).tables.blocks[h].createdAt < s.now - l.safetyWindow
  {
    var listed := Next(l, s, FindOrphans(w, hashes));
    AmongRun(l, listed, steps, w, hashes);
    assert Orphaned(s, l, h);
    if StandsThroughout(l, listed, steps, h) {
      BirthRun(l, listed, steps, h);
    }
  }

  /** A row that was removed and made again since then can be deleted however young it is. */
  lemma YoungRowDeleted(l: Limits, w: WorkerId) returns (s: State)
    requires l.Valid()
    ensures Reachable(l, s, {w}) && w in s.sweepers && s.sweepers[w].Doomed?
    ensures
      var h := s.sweepers[w].hash;
      && h in s.tables.blocks && s.tables.blocks[h].createdAt == s.now
      && h !in Next(l, s, HardDeleteRow(w, true)).tables.blocks
  {
    var h := Name(0);
    s := ListedOrphan(l, w);
    s := ReachStep(l, s, {w}, ConsumeTombstone(h));
    s := MakeOrphan(l, s, {w}, h);
    s := ChecksPass(l, s, {w}, w, h);
  }

  lemma ChecksPass(l: Limits, s: State, sweepers: set<WorkerId>, w: WorkerId, h: Hash) returns (t: State)
    requires Reachable(l, s, sweepers) && w in s.sweepers && s.sweepers[w] == Ready([h])
    requires h in s.tables.blocks && s.tables.blocks[h].refCount == 0 && s.deletionCount < l.maxBlocksPerHour
    ensures Reachable(l, t, sweepers) && t == s.(sweepers := s.sweepers[w := Doomed(h, [])])
  {
    assert [h][1..] == [];
    t := ReachStep(l, s, sweepers, RateCheck(w));
    t := ReachStep(l, t, sweepers, DoubleCheck(w));
    assert t.sweepers == s.sweepers[w := Doomed(h, [])];
  }

  lemma ListedOrphan(l: Limits, w: WorkerId) returns (s: State)
    requires l.Valid()
    ensures Reachable(l, s, {w}) && w in s.sweepers && s.sweepers[w] == Ready([Name(0)])
    ensures s.tables.manifest == map[] && s.deletionCount == 0
    ensures Name(0) in s.tables.blocks && s.tables.blocks[Name(0)].refCount == 0
  {
    s := HourAfterReset(l, w, 1);
    assert Orphaned(s, l, Name(0));
    s := ReachStep(l, s, {w}, SweepStart(w));
    s := ReachStep(l, s, {w}, FindOrphans(w, [Name(0)]));
  }
}
