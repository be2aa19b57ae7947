/**
 Interleavings of commits, version removals, session cleanups, block sweeps and the tombstone consumer.
 `yielded`, `removed` and `lost` are history: how many versions each session produced, and since the deletion
 counter was last reset, how many rows sweeps removed and for how many of these the collector saw an error.
 */
module RegistryProtocol {
  import opened Options
  import opened Sets
  import opened Registry

  /**
   The rate limit is positive: the defaults replace anything else.  `dbAhead` is how far the database's clock,
   by which sessions are selected for cleanup, is ahead of the application's, by which commits are checked.
   */
  datatype Limits = Limits(maxBlocksPerHour: nat, safetyWindow: int, dbAhead: int) {
    predicate Valid() {
      maxBlocksPerHour > 0
    }
  }

  const HOUR: int := 3600

  /** Where a sweep stands: its queue, and what it has done to the block at hand. */
  datatype Sweep =
    | Idle
    | Started                                   // the hourly reset has been decided
    | Ready(queue: seq<Hash>)
    | Armed(hash: Hash, queue: seq<Hash>)       // below the rate limit
    | Doomed(hash: Hash, queue: seq<Hash>)      // double-checked; tombstone and blob deletion under way
    | Deleted(gone: bool, queue: seq<Hash>)     // hard delete done, counter not updated yet

  datatype State = State(
    now: int,
    tables: Tables,
    sessions: map<SessionId, Session>,
    yielded: map<SessionId, nat>,
    cleaners: map<WorkerId, seq<SessionId>>,    // selected sessions a cleanup has yet to mark
    sweepers: map<WorkerId, Sweep>,
    deletionCount: nat,
    rateResetAt: int,
    removed: nat,
    lost: nat)

  /** The last reset lies in the distant past, so that the first sweep resets the counter. */
  function Init(now: int, sweepers: set<WorkerId>): State {
    State(now, Tables(map[], map[]), map[], map[], map[], map w | w in sweepers :: Idle, 0, now - HOUR - 1, 0, 0)
  }

  datatype Step =
    | Tick(seconds: nat)
    | OpenSession(sid: SessionId, session: Session)
    | CommitFile(tenant: TenantId, sid: SessionId, vid: VersionId, blocks: seq<Block>)
    | RemoveVersion(keys: seq<EntryKey>)
    | SelectExpired(cleaner: WorkerId, sids: seq<SessionId>)
    | MarkExpired(cleaner: WorkerId, ok: bool)
    | SweepStart(w: WorkerId)
    | FindOrphans(w: WorkerId, hashes: seq<Hash>)
    | RateCheck(w: WorkerId)
    | DoubleCheck(w: WorkerId)
    | Abandon(w: WorkerId)                      // dry run, or publishing or blob deletion failed
    | HardDeleteRow(w: WorkerId, acked: bool)   // `acked` is false when the collector sees an error all the same
    | CountDeletion(w: WorkerId)
    | ConsumeTombstone(hash: Hash)

  function Yields(s: State, sid: SessionId): nat {
    if sid in s.yielded then s.yielded[sid] else 0
  }

  /** A session the cleanup query selects. */
  predicate Selectable(s: State, l: Limits, sid: SessionId) {
    sid in s.sessions && s.sessions[sid].status != Completed && s.sessions[sid].expiresAt < s.now + l.dbAhead
  }

  /** A block the orphan query selects. */
  predicate Orphaned(s: State, l: Limits, h: Hash) {
    h in s.tables.blocks && s.tables.blocks[h].refCount == 0 && s.tables.blocks[h].createdAt < s.now - l.safetyWindow
  }

  predicate Enabled(l: Limits, s: State, step: Step) {
    match step
    case Tick(_) => true
    case OpenSession(sid, session) => sid !in s.sessions && sid !in s.yielded && session.status == Initiated
    case CommitFile(_, _, _, _) => true
    case RemoveVersion(_) => true
    case SelectExpired(c, sids) => c !in s.cleaners && forall x :: x in sids ==> Selectable(s, l, x)
    case MarkExpired(c, _) => c in s.cleaners && s.cleaners[c] != []
    case SweepStart(w) => w in s.sweepers && s.sweepers[w] == Idle
    case FindOrphans(w, hashes) =>
      w in s.sweepers && s.sweepers[w] == Started && forall h :: h in hashes ==> Orphaned(s, l, h)
    case RateCheck(w) => w in s.sweepers && s.sweepers[w].Ready?
    case DoubleCheck(w) => w in s.sweepers && s.sweepers[w].Armed?
    case Abandon(w) => w in s.sweepers && s.sweepers[w].Doomed?
    case HardDeleteRow(w, _) => w in s.sweepers && s.sweepers[w].Doomed?
    case CountDeletion(w) => w in s.sweepers && s.sweepers[w].Deleted?
    case ConsumeTombstone(_) => true
  }

  function Deletes(s: State, h: Hash): bool {
    h in s.tables.blocks && s.tables.blocks[h].refCount == 0
  }

  function Next(l: Limits, s: State, step: Step): State
    requires Enabled(l, s, step)
  {
    match step
    case Tick(d) => s.(now := s.now + d)
    case OpenSession(sid, session) => s.(sessions := s.sessions[sid := session])
    case CommitFile(tenant, sid, vid, blocks) =>
      var r := Commit(s.sessions, s.tables, s.now, tenant, sid, vid, blocks);
      if r.Refused? then s
      else s.(tables := r.tables,
              sessions := s.sessions[sid := s.sessions[sid].(status := Completed)],
              yielded := s.yielded[sid := Yields(s, sid) + 1])
    case RemoveVersion(keys) =>
      var r := DeleteEntries(s.tables, keys);
      if r.None? then s else s.(tables := r.value)
    case SelectExpired(c, sids) => s.(cleaners := s.cleaners[c := sids])
    case MarkExpired(c, ok) =>
      var sid := s.cleaners[c][0];
      var s1 := s.(cleaners := s.cleaners[c := s.cleaners[c][1..]]);
      if ok && sid in s.sessions then s1.(sessions := s.sessions[sid := s.sessions[sid].(status := ExpiredStatus)])
      else s1
    case SweepStart(w) =>
      var s1 := s.(sweepers := s.sweepers[w := Started]);
      if s.now - s.rateResetAt > HOUR then s1.(deletionCount := 0, removed := 0, lost := 0, rateResetAt := s.now)
      else s1
    case FindOrphans(w, hashes) => s.(sweepers := s.sweepers[w := Ready(hashes)])
    case RateCheck(w) =>
      var q := s.sweepers[w].queue;
      s.(sweepers := s.sweepers[w :=
        if q == [] || s.deletionCount >= l.maxBlocksPerHour then Idle else Armed(q[0], q[1..])])
    case DoubleCheck(w) =>
      var Armed(h, q) := s.sweepers[w];
      s.(sweepers := s.sweepers[w := if Deletes(s, h) then Doomed(h, q) else Ready(q)])
    case Abandon(w) => s.(sweepers := s.sweepers[w := Ready(s.sweepers[w].queue)])
    case HardDeleteRow(w, acked) =>
      var Doomed(h, q) := s.sweepers[w];
      var gone := if Deletes(s, h) then 1 else 0;
      s.(tables := s.tables.(blocks := HardDelete(s.tables.blocks, h)),
         sweepers := s.sweepers[w := if acked then Deleted(Deletes(s, h), q) else Ready(q)],
         removed := s.removed + gone,
         lost := s.lost + if acked then 0 else gone)
    case CountDeletion(w) =>
      var Deleted(gone, q) := s.sweepers[w];
      s.(sweepers := s.sweepers[w := Ready(q)], deletionCount := s.deletionCount + if gone then 1 else 0)
    case ConsumeTombstone(h) => s.(tables := s.tables.(blocks := HardDelete(s.tables.blocks, h)))
  }

  // ---------------------------------------------------------------------------------------------
  // Invariants
  // ---------------------------------------------------------------------------------------------

  ghost predicate TablesOk(s: State) {
    CountsExact(s.tables.blocks, s.tables.manifest)
  }

  /** A session that has yielded a version can never yield another: it is completed, or past its expiry. */
  ghost predicate SessionSpent(s: State, sid: SessionId) {
    sid in s.sessions && (s.sessions[sid].status == Completed || s.now > s.sessions[sid].expiresAt)
  }

  ghost predicate SpentOk(s: State) {
    forall sid :: sid in s.yielded ==> s.yielded[sid] == 1 && SessionSpent(s, sid)
  }

  predicate PastExpiry(s: State, sid: SessionId) {
    sid in s.sessions && s.sessions[sid].expiresAt < s.now
  }

  /** What a cleanup has yet to mark is past its expiry. */
  ghost predicate SelectedOk(s: State) {
    forall c, sid :: c in s.cleaners && sid in s.cleaners[c] ==> PastExpiry(s, sid)
  }

  ghost predicate SessionsOk(s: State) {
    SpentOk(s) && SelectedOk(s)
  }

  /** Between passing the rate check and updating the counter. */
  predicate IsBusy(p: Sweep) {
    p.Armed? || p.Doomed? || p.Deleted?
  }

  /** Removed a row and has not counted it yet. */
  predicate IsUncounted(p: Sweep) {
    p.Deleted? && p.gone
  }

  ghost function Busy(m: map<WorkerId, Sweep>): set<WorkerId> {
    set w | w in m && IsBusy(m[w])
  }

  ghost function Uncounted(m: map<WorkerId, Sweep>): set<WorkerId> {
    set w | w in m && IsUncounted(m[w])
  }

  ghost predicate RateOk(l: Limits, s: State) {
    && s.removed <= s.deletionCount + |Uncounted(s.sweepers)| + s.lost
    && s.deletionCount + |Busy(s.sweepers)| <= l.maxBlocksPerHour + |s.sweepers| - 1
  }

  ghost predicate Inv(l: Limits, s: State) {
    l.Valid() && TablesOk(s) && (l.dbAhead <= 0 ==> SessionsOk(s)) && RateOk(l, s)
  }

  lemma InitInv(l: Limits, now: int, sweepers: set<WorkerId>)
    requires l.Valid()
    ensures Inv(l, Init(now, sweepers))
  {
    var m := Init(now, sweepers).sweepers;
    assert Busy(m) == {} && Uncounted(m) == {};
  }

  lemma TablesStep(l: Limits, s: State, step: Step)
    requires TablesOk(s) && Enabled(l, s, step)
    ensures TablesOk(Next(l, s, step))
  {
    match step {
      case CommitFile(tenant, sid, vid, blocks) => CommitKeepsCounts(s, tenant, sid, vid, blocks);
      case RemoveVersion(keys) => DeleteEntriesExact(s.tables, keys);
      case HardDeleteRow(w, _) => HardDeleteExact(s.tables.blocks, s.tables.manifest, s.sweepers[w].hash);
      case ConsumeTombstone(h) => HardDeleteExact(s.tables.blocks, s.tables.manifest, h);
      case _ =>
    }
  }

  lemma CommitKeepsCounts(s: State, tenant: TenantId, sid: SessionId, vid: VersionId, blocks: seq<Block>)
    requires TablesOk(s)
    ensures
      var r := Commit(s.sessions, s.tables, s.now, tenant, sid, vid, blocks);
      r.Committed? ==> CountsExact(r.tables.blocks, r.tables.manifest)
  {
    EnsureRowsExact(s.tables.blocks, s.tables.manifest, blocks, s.now);
    var rows := Tables(EnsureRows(s.tables.blocks, blocks, s.now), s.tables.manifest);
    if InsertEntries(rows, vid, blocks).Some? {
      InsertEntriesExact(rows, vid, blocks);
    }
  }

  lemma SessionsStep(l: Limits, s: State, step: Step)
    requires l.dbAhead <= 0 && SessionsOk(s) && Enabled(l, s, step)
    ensures SessionsOk(Next(l, s, step))
  {
    SpentStep(l, s, step);
    SelectedStep(l, s, step);
  }

  lemma SpentStep(l: Limits, s: State, step: Step)
    requires SessionsOk(s) && Enabled(l, s, step)
    ensures SpentOk(Next(l, s, step))
  {
    if step.MarkExpired? {
      var sid := s.cleaners[step.cleaner][0];
      assert PastExpiry(s, sid);
    }
  }

  lemma SelectedStep(l: Limits, s: State, step: Step)
    requires l.dbAhead <= 0 && SelectedOk(s) && Enabled(l, s, step)
    ensures SelectedOk(Next(l, s, step))
  {
    var t := Next(l, s, step);
    forall c, sid | c in t.cleaners && sid in t.cleaners[c]
      ensures PastExpiry(t, sid)
    {
      if step == SelectExpired(c, t.cleaners[c]) {
        assert Selectable(s, l, sid);
      } else {
        assert sid in s.cleaners[c] && PastExpiry(s, sid);
      }
    }
  }

  // ---------------------------------------------------------------------------------------------
  // The rate limit
  // ---------------------------------------------------------------------------------------------

  lemma MoveBusy(m: map<WorkerId, Sweep>, w: WorkerId, p: Sweep)
    requires w in m
    ensures |m[w := p]| == |m| && |Busy(m)| <= |m|
    ensures |Busy(m[w := p])| == |Busy(m)| + BusyCount(p) - BusyCount(m[w])
  {
    assert m[w := p].Keys == m.Keys;
    SubsetSize(Busy(m), m.Keys);
    var b := Busy(m) - {w};
    assert Busy(m) == if IsBusy(m[w]) then b + {w} else b;
    assert Busy(m[w := p]) == if IsBusy(p) then b + {w} else b;
  }

  lemma MoveUncounted(m: map<WorkerId, Sweep>, w: WorkerId, p: Sweep)
    requires w in m
    ensures |Uncounted(m[w := p])| == |Uncounted(m)| + UncountedCount(p) - UncountedCount(m[w])
  {
    var u := Uncounted(m) - {w};
    assert Uncounted(m) == if IsUncounted(m[w]) then u + {w} else u;
    assert Uncounted(m[w := p]) == if IsUncounted(p) then u + {w} else u;
  }

  function BusyCount(p: Sweep): nat {
    if IsBusy(p) then 1 else 0
  }

  function UncountedCount(p: Sweep): nat {
    if IsUncounted(p) then 1 else 0
  }

  /** One sweeper moves on: what its step may do to the two counters. */
  ghost predicate RateMove(l: Limits, s: State, t: State, w: WorkerId, p: Sweep) {
    && w in s.sweepers && t.sweepers == s.sweepers[w := p]
    && (t.removed == 0 ||
        t.removed - t.lost - t.deletionCount - UncountedCount(p) <=
        s.removed - s.lost - s.deletionCount - UncountedCount(s.sweepers[w]))
    && (t.deletionCount + BusyCount(p) <= s.deletionCount + BusyCount(s.sweepers[w]) ||
        t.deletionCount < l.maxBlocksPerHour)
  }

  lemma RateMoveKeeps(l: Limits, s: State, t: State, w: WorkerId, p: Sweep)
    requires RateOk(l, s) && RateMove(l, s, t, w, p)
    ensures RateOk(l, t)
  {
    MoveBusy(s.sweepers, w, p);
    MoveBusy(t.sweepers, w, p);
    MoveUncounted(s.sweepers, w, p);
  }

  lemma RateStep(l: Limits, s: State, step: Step)
    requires l.Valid() && RateOk(l, s) && Enabled(l, s, step)
    ensures RateOk(l, Next(l, s, step))
  {
    var t := Next(l, s, step);
    if t.sweepers != s.sweepers {
      assert step.SweepStart? || step.FindOrphans? || step.RateCheck? || step.DoubleCheck? || step.Abandon?
        || step.HardDeleteRow? || step.CountDeletion?;
      RateMoveKeeps(l, s, t, step.w, t.sweepers[step.w]);
    }
  }

  lemma InvStep(l: Limits, s: State, step: Step)
    requires Inv(l, s) && Enabled(l, s, step)
    ensures Inv(l, Next(l, s, step)) && Next(l, s, step).sweepers.Keys == s.sweepers.Keys
  {
    TablesStep(l, s, step);
    if l.dbAhead <= 0 {
      SessionsStep(l, s, step);
    }
    RateStep(l, s, step);
  }

  // ---------------------------------------------------------------------------------------------
  // Runs
  // ---------------------------------------------------------------------------------------------

  predicate Legal(l: Limits, s: State, steps: seq<Step>)
    decreases |steps|
  {
    steps == [] || (Enabled(l, s, steps[0]) && Legal(l, Next(l, s, steps[0]), steps[1..]))
  }

  function Run(l: Limits, s: State, steps: seq<Step>): State
    requires Legal(l, s, steps)
    decreases |steps|
  {
    if steps == [] then s else Run(l, Next(l, s, steps[0]), steps[1..])
  }

  lemma {:induction false} RunInv(l: Limits, s: State, steps: seq<Step>)
    requires Inv(l, s) && Legal(l, s, steps)
    ensures Inv(l, Run(l, s, steps)) && Run(l, s, steps).sweepers.Keys == s.sweepers.Keys
    decreases |steps|
  {
    if steps != [] {
      InvStep(l, s, steps[0]);
      RunInv(l, Next(l, s, steps[0]), steps[1..]);
    }
  }

  ghost predicate Reachable(l: Limits, s: State, sweepers: set<WorkerId>) {
    exists now, steps :: Legal(l, Init(now, sweepers), steps) && s == Run(l, Init(now, sweepers), steps)
  }

  lemma ReachableInv(l: Limits, s: State, sweepers: set<WorkerId>)
    requires l.Valid() && Reachable(l, s, sweepers)
    ensures Inv(l, s) && |s.sweepers| == |sweepers|
  {
    var now, steps :| Legal(l, Init(now, sweepers), steps) && s == Run(l, Init(now, sweepers), steps);
    InitInv(l, now, sweepers);
    RunInv(l, Init(now, sweepers), steps);
    assert s.sweepers.Keys == sweepers;
  }

  /** In every reachable state each row's count is exact, and no step removes a row that is referenced. */
  lemma ReferencedRowsStay(l: Limits, s: State, sweepers: set<WorkerId>, step: Step, h: Hash)
    requires l.Valid() && Reachable(l, s, sweepers) && Enabled(l, s, step) && h in s.tables.blocks
    ensures s.tables.blocks[h].refCount == Refs(s.tables.manifest, h)
    ensures Refs(s.tables.manifest, h) > 0 ==> h in Next(l, s, step).tables.blocks
  {
    ReachableInv(l, s, sweepers);
    var m := s.tables.manifest;
    if step.HardDeleteRow? {
      HardDeleteExact(s.tables.blocks, m, s.sweepers[step.w].hash);
    } else if step.ConsumeTombstone? {
      HardDeleteExact(s.tables.blocks, m, step.hash);
    } else {
      OtherStepsKeepRows(l, s, step, h);
    }
  }

  lemma OtherStepsKeepRows(l: Limits, s: State, step: Step, h: Hash)
    requires Enabled(l, s, step) && !step.HardDeleteRow? && !step.ConsumeTombstone? && h in s.tables.blocks
    ensures h in Next(l, s, step).tables.blocks
  {
    if step.CommitFile? {
      var rows := EnsureRows(s.tables.blocks, step.blocks, s.now);
      InsertKeepsRows(Tables(rows, s.tables.manifest), step.vid, step.blocks);
    } else if step.RemoveVersion? {
      DeleteKeepsRows(s.tables, step.keys);
    }
  }

  lemma {:induction false} InsertKeepsRows(t: Tables, vid: VersionId, bs: seq<Block>)
    ensures InsertEntries(t, vid, bs).Some? ==> InsertEntries(t, vid, bs).value.blocks.Keys == t.blocks.Keys
  {
    if bs != [] {
      InsertKeepsRows(t, vid, bs[..|bs| - 1]);
    }
  }

  lemma {:induction false} DeleteKeepsRows(t: Tables, keys: seq<EntryKey>)
    ensures DeleteEntries(t, keys).Some? ==> DeleteEntries(t, keys).value.blocks.Keys == t.blocks.Keys
  {
    if keys != [] {
      DeleteKeepsRows(t, keys[..|keys| - 1]);
    }
  }

  /** Every chunk of every manifest has its registry row, in every reachable state. */
  lemma EntriesHaveRows(l: Limits, s: State, sweepers: set<WorkerId>, k: EntryKey)
    requires l.Valid() && Reachable(l, s, sweepers) && k in s.tables.manifest
    ensures s.tables.manifest[k] in s.tables.blocks && s.tables.blocks[s.tables.manifest[k]].refCount > 0
  {
    ReachableInv(l, s, sweepers);
    var h := s.tables.manifest[k];
    assert k in EntriesOf(s.tables.manifest, h);
  }

  /**
   Each upload session yields at most one version, even if cleanup overwrites its completed status, as long
   as the database's clock is not ahead of the application's...
   */
  lemma OneVersionPerSession(l: Limits, s: State, sweepers: set<WorkerId>, sid: SessionId)
    requires l.Valid() && Reachable(l, s, sweepers) && l.dbAhead <= 0
    ensures Yields(s, sid) <= 1
    ensures Yields(s, sid) == 1 ==>
      forall tenant, vid, blocks :: Commit(s.sessions, s.tables, s.now, tenant, sid, vid, blocks).Refused?
  {
    ReachableInv(l, s, sweepers);
  }

  /** ...and only then: by however little it is ahead, some run makes two versions of one session. */
  lemma SecondVersion(l: Limits, sweepers: set<WorkerId>) returns (s: State)
    requires l.dbAhead > 0
    ensures Reachable(l, s, sweepers) && Yields(s, 0) == 2
  {
    s := SelectedSession(l, sweepers);
    s := CommitOne(l, s, sweepers, 0, 0, "a");
    s := ReachStep(l, s, sweepers, MarkExpired(0, true));
    s := CommitOne(l, s, sweepers, 0, 1, "a");
  }

  /** In its last second a session is selected for cleanup, by a clock that is ahead. */
  lemma SelectedSession(l: Limits, sweepers: set<WorkerId>) returns (s: State)
    requires l.dbAhead > 0
    ensures Reachable(l, s, sweepers) && s.now == 0 && s.cleaners == map[0 := [0]]
    ensures s.sessions == map[0 := Session("t", Some("n"), Initiated, 1, 0)] && s.yielded == map[]
    ensures s.tables == Tables(map[], map[])
  {
    s := Init(0, sweepers);
    assert Run(l, s, []) == s;
    s := ReachStep(l, s, sweepers, OpenSession(0, Session("t", Some("n"), Initiated, 1, 0)));
    s := ReachStep(l, s, sweepers, SelectExpired(0, [0]));
  }

  /** An open session of tenant "t" that expects one block. */
  predicate AwaitsOne(s: State, sid: SessionId) {
    && sid in s.sessions && s.sessions[sid].status != Completed && s.now <= s.sessions[sid].expiresAt
    && s.sessions[sid].tenant == "t" && s.sessions[sid].expectedChunks == 1 && s.sessions[sid].node.Some?
  }

  /** The tables after a commit of the one block `h` as version `vid`. */
  function WithOne(t: Tables, now: int, vid: VersionId, h: Hash): Tables {
    var rows := if h in t.blocks then t.blocks else t.blocks[h := BlockRow(0, now)];
    Tables(AddRef(rows, h, 1), t.manifest[EntryKey(vid, 0) := h])
  }

  lemma CommitOne(l: Limits, s: State, sweepers: set<WorkerId>, sid: SessionId, vid: VersionId, h: Hash)
    returns (t: State)
    requires Reachable(l, s, sweepers) && AwaitsOne(s, sid) && EntryKey(vid, 0) !in s.tables.manifest
    ensures Reachable(l, t, sweepers)
    ensures t == s.(tables := WithOne(s.tables, s.now, vid, h),
                    sessions := s.sessions[sid := s.sessions[sid].(status := Completed)],
                    yielded := s.yielded[sid := Yields(s, sid) + 1])
  {
    InsertOne(s.tables, s.now, vid, h);
    t := ReachStep(l, s, sweepers, CommitFile("t", sid, vid, [Block(h, 0)]));
  }

  lemma InsertOne(t: Tables, now: int, vid: VersionId, h: Hash)
    requires EntryKey(vid, 0) !in t.manifest
    ensures
      var bs := [Block(h, 0)];
      InsertEntries(Tables(EnsureRows(t.blocks, bs, now), t.manifest), vid, bs) == Some(WithOne(t, now, vid, h))
  {
    var bs := [Block(h, 0)];
    assert bs[..0] == [] && EnsureRows(t.blocks, [], now) == t.blocks;
  }

  /**
   Between two resets of the counter, `n` concurrent sweepers remove at most n - 1 rows more than the
   limit, besides those whose removal the collector saw as an error; a single sweeper never exceeds it.
   */
  lemma SweepsRespectRate(l: Limits, s: State, sweepers: set<WorkerId>)
    requires l.Valid() && Reachable(l, s, sweepers)
    ensures s.removed <= l.maxBlocksPerHour + |sweepers| - 1 + s.lost
  {
    ReachableInv(l, s, sweepers);
    assert Uncounted(s.sweepers) <= Busy(s.sweepers);
    SubsetSize(Uncounted(s.sweepers), Busy(s.sweepers));
  }

  // ---------------------------------------------------------------------------------------------
  // The bound is attained
  // ---------------------------------------------------------------------------------------------

  /** The slack is real, for every limit and any number of sweepers: all pass the check before any counts. */
  lemma SweepersExceed(l: Limits, sweepers: set<WorkerId>) returns (s: State)
    requires l.Valid() && sweepers != {}
    ensures Reachable(l, s, sweepers) && s.removed == l.maxBlocksPerHour + |sweepers| - 1 && s.lost == 0
  {
    var w :| w in sweepers;
    var m := l.maxBlocksPerHour + |sweepers| - 1;
    s := ManyOrphans(l, sweepers, m);
    s := FirstSweeper(l, s, sweepers, w, m);
    s := OtherSweepers(l, s, sweepers, sweepers - {w}, l.maxBlocksPerHour, m);
  }

  /** Pairwise different hashes. */
  function Name(i: nat): Hash {
    seq(i, _ => 'a')
  }

  /** The blocks from `j` to `m` are there to be swept, and the hour of the counter is not over. */
  ghost predicate Sweepable(l: Limits, s: State, j: nat, m: nat) {
    && (forall i :: j <= i < m ==> Orphaned(s, l, Name(i)))
    && s.now - s.rateResetAt <= HOUR
  }

  ghost predicate AllIdle(s: State, sweepers: set<WorkerId>, idle: set<WorkerId>) {
    s.sweepers.Keys == sweepers && idle <= sweepers && forall w :: w in idle ==> s.sweepers[w] == Idle
  }

  /** Nothing but `m` unreferenced blocks, created now. */
  ghost predicate OnlyOrphans(s: State, sweepers: set<WorkerId>, m: nat) {
    && s.tables.manifest == map[] && s.removed == 0 && s.lost == 0 && s.deletionCount == 0
    && AllIdle(s, sweepers, sweepers)
    && (forall h :: h in s.tables.blocks ==> |h| < m)
    && (forall i :: 0 <= i < m ==> Name(i) in s.tables.blocks && s.tables.blocks[Name(i)] == BlockRow(0, s.now))
  }

  lemma {:induction false} ManyOrphans(l: Limits, sweepers: set<WorkerId>, m: nat) returns (s: State)
    ensures Reachable(l, s, sweepers) && OnlyOrphans(s, sweepers, m)
  {
    if m == 0 {
      s := Init(0, sweepers);
      assert Run(l, s, []) == s;
    } else {
      s := ManyOrphans(l, sweepers, m - 1);
      s := OneMoreOrphan(l, s, sweepers, m - 1);
    }
  }

  lemma OneMoreOrphan(l: Limits, s: State, sweepers: set<WorkerId>, m: nat) returns (t: State)
    requires Reachable(l, s, sweepers) && OnlyOrphans(s, sweepers, m)
    ensures Reachable(l, t, sweepers) && OnlyOrphans(t, sweepers, m + 1)
  {
    t := MakeOrphan(l, s, sweepers, Name(m));
  }

  /** A block is committed in a session of its own, and its version is removed again. */
  lemma MakeOrphan(l: Limits, s: State, sweepers: set<WorkerId>, h: Hash) returns (t: State)
    requires Reachable(l, s, sweepers) && s.tables.manifest == map[] && h !in s.tables.blocks
    ensures Reachable(l, t, sweepers)
    ensures t == s.(tables := Tables(s.tables.blocks[h := BlockRow(0, s.now)], map[]),
                    sessions := t.sessions, yielded := t.yielded)
  {
    var sid := Above(s.sessions.Keys + s.yielded.Keys);
    t := ReachStep(l, s, sweepers, OpenSession(sid, Session("t", Some("n"), Initiated, 1, s.now)));
    t := CommitOne(l, t, sweepers, sid, 0, h);
    RemoveOne(s.tables, s.now, h);
    t := ReachStep(l, t, sweepers, RemoveVersion([EntryKey(0, 0)]));
  }

  lemma RemoveOne(t: Tables, now: int, h: Hash)
    requires t.manifest == map[] && h !in t.blocks
    ensures DeleteEntries(WithOne(t, now, 0, h), [EntryKey(0, 0)]) ==
      Some(Tables(t.blocks[h := BlockRow(0, now)], map[]))
  {
    var keys, u := [EntryKey(0, 0)], WithOne(t, now, 0, h);
    assert keys[..0] == [] && DeleteEntries(u, []) == Some(u);
    assert AddRef(u.blocks, h, -1) == t.blocks[h := BlockRow(0, now)];
    assert u.manifest - {keys[0]} == map[];
  }

  /** The checks and the delete of the block at the head of the queue; the deletion is not counted yet. */
  lemma DeleteNext(l: Limits, s: State, sweepers: set<WorkerId>, w: WorkerId, q: seq<Hash>, j: nat, m: nat)
    returns (t: State)
    requires Reachable(l, s, sweepers) && w in s.sweepers && s.sweepers[w] == Ready(q)
    requires q != [] && q[0] == Name(j) && j < m && Sweepable(l, s, j, m) && s.deletionCount < l.maxBlocksPerHour
    ensures Reachable(l, t, sweepers) && t.sweepers == s.sweepers[w := Deleted(true, q[1..])]
    ensures t.removed == s.removed + 1 && t.lost == s.lost && t.deletionCount == s.deletionCount
    ensures Sweepable(l, t, j + 1, m)
  {
    assert Orphaned(s, l, Name(j));
    t := ReachStep(l, s, sweepers, RateCheck(w));
    t := ReachStep(l, t, sweepers, DoubleCheck(w));
    t := ReachStep(l, t, sweepers, HardDeleteRow(w, true));
    forall i | j + 1 <= i < m
      ensures Orphaned(t, l, Name(i))
    {
      assert Orphaned(s, l, Name(i)) && |Name(i)| != |Name(j)|;
    }
  }

  lemma CountNext(l: Limits, s: State, sweepers: set<WorkerId>, w: WorkerId, q: seq<Hash>, j: nat, m: nat)
    returns (t: State)
    requires Reachable(l, s, sweepers) && w in s.sweepers && s.sweepers[w] == Deleted(true, q) && Sweepable(l, s, j, m)
    ensures Reachable(l, t, sweepers) && t.sweepers == s.sweepers[w := Ready(q)] && Sweepable(l, t, j, m)
    ensures t.removed == s.removed && t.lost == s.lost && t.deletionCount == s.deletionCount + 1
  {
    t := ReachStep(l, s, sweepers, CountDeletion(w));
    forall i | j <= i < m
      ensures Orphaned(t, l, Name(i))
    {
      assert Orphaned(s, l, Name(i));
    }
  }

  /** The names from `j` to `n`. */
  function Names(j: nat, n: nat): seq<Hash>
    requires j <= n
  {
    seq(n - j, i requires 0 <= i < n - j => Name(j + i))
  }

  /** A sweeper starts and lists the blocks from `j` to `n`. */
  lemma StartSweep(l: Limits, s: State, sweepers: set<WorkerId>, w: WorkerId, j: nat, n: nat, m: nat)
    returns (t: State)
    requires Reachable(l, s, sweepers) && w in s.sweepers && s.sweepers[w] == Idle
    requires j <= n <= m && Sweepable(l, s, j, m)
    ensures Reachable(l, t, sweepers) && t.sweepers == s.sweepers[w := Ready(Names(j, n))] && Sweepable(l, t, j, m)
    ensures t.removed == s.removed && t.lost == s.lost && t.deletionCount == s.deletionCount
  {
    t := ReachStep(l, s, sweepers, SweepStart(w));
    assert t == s.(sweepers := s.sweepers[w := Started]);
    forall i | j <= i < m
      ensures Orphaned(t, l, Name(i))
    {
      assert Orphaned(s, l, Name(i));
    }
    t := ReachStep(l, t, sweepers, FindOrphans(w, Names(j, n)));
    forall i | j <= i < m
      ensures Orphaned(t, l, Name(i))
    {
      assert Orphaned(s, l, Name(i));
    }
  }

  /** The blocks have come of age, and the counter is at zero in a fresh hour. */
  lemma OldEnough(l: Limits, s: State, sweepers: set<WorkerId>, w: WorkerId, m: nat) returns (t: State)
    requires Reachable(l, s, sweepers) && OnlyOrphans(s, sweepers, m) && w in sweepers
    ensures Reachable(l, t, sweepers) && Sweepable(l, t, 0, m) && t.removed == 0 && t.lost == 0 && t.deletionCount == 0
    ensures t.sweepers == s.sweepers[w := Started]
  {
    var d := if l.safetyWindow < 0 then 1 else l.safetyWindow + 1;
    t := ReachStep(l, s, sweepers, Tick(d));
    var u := t;
    t := ReachStep(l, u, sweepers, SweepStart(w));
    assert t.tables == s.tables && t.now == s.now + d;
    OldOrphans(l, s, t, sweepers, m);
  }

  lemma OldOrphans(l: Limits, s: State, t: State, sweepers: set<WorkerId>, m: nat)
    requires OnlyOrphans(s, sweepers, m) && t.tables == s.tables && t.now > s.now + l.safetyWindow
    ensures forall i :: 0 <= i < m ==> Orphaned(t, l, Name(i))
  {
    forall i | 0 <= i < m
      ensures Orphaned(t, l, Name(i))
    {
      assert s.tables.blocks[Name(i)] == BlockRow(0, s.now);
    }
  }

  /** The first sweeper deletes and counts all but one of the blocks the limit allows, and deletes one more. */
  lemma FirstSweeper(l: Limits, s: State, sweepers: set<WorkerId>, w: WorkerId, m: nat) returns (t: State)
    requires l.Valid() && Reachable(l, s, sweepers) && OnlyOrphans(s, sweepers, m) && w in sweepers
    requires l.maxBlocksPerHour <= m
    ensures Reachable(l, t, sweepers) && Sweepable(l, t, l.maxBlocksPerHour, m)
    ensures t.removed == l.maxBlocksPerHour && t.lost == 0 && t.deletionCount == l.maxBlocksPerHour - 1
    ensures AllIdle(t, sweepers, sweepers - {w})
  {
    var n := l.maxBlocksPerHour;
    t := FirstRounds(l, s, sweepers, w, m, n - 1);
    t := DeleteNext(l, t, sweepers, w, Names(n - 1, n), n - 1, m);
  }

  lemma {:induction false} FirstRounds(l: Limits, s: State, sweepers: set<WorkerId>, w: WorkerId, m: nat, j: nat)
    returns (t: State)
    requires Reachable(l, s, sweepers) && OnlyOrphans(s, sweepers, m) && w in sweepers
    requires j < l.maxBlocksPerHour <= m
    ensures Reachable(l, t, sweepers) && Sweepable(l, t, j, m) && t.removed == j == t.deletionCount && t.lost == 0
    ensures t.sweepers == s.sweepers[w := Ready(Names(j, l.maxBlocksPerHour))]
    decreases j
  {
    var n := l.maxBlocksPerHour;
    if j == 0 {
      t := OldEnough(l, s, sweepers, w, m);
      t := ListFirst(l, t, sweepers, w, m);
    } else {
      t := FirstRounds(l, s, sweepers, w, m, j - 1);
      t := NextRound(l, t, sweepers, w, m, j);
    }
  }

  lemma NextRound(l: Limits, s: State, sweepers: set<WorkerId>, w: WorkerId, m: nat, j: nat) returns (t: State)
    requires Reachable(l, s, sweepers) && 0 < j < l.maxBlocksPerHour <= m && Sweepable(l, s, j - 1, m)
    requires w in s.sweepers && s.sweepers[w] == Ready(Names(j - 1, l.maxBlocksPerHour)) && s.deletionCount == j - 1
    ensures Reachable(l, t, sweepers) && Sweepable(l, t, j, m)
    ensures t.sweepers == s.sweepers[w := Ready(Names(j, l.maxBlocksPerHour))]
    ensures t.removed == s.removed + 1 && t.lost == s.lost && t.deletionCount == j
  {
    var n := l.maxBlocksPerHour;
    assert Names(j - 1, n)[1..] == Names(j, n);
    t := DeleteNext(l, s, sweepers, w, Names(j - 1, n), j - 1, m);
    t := CountNext(l, t, sweepers, w, Names(j, n), j, m);
  }

  lemma ListFirst(l: Limits, s: State, sweepers: set<WorkerId>, w: WorkerId, m: nat) returns (t: State)
    requires Reachable(l, s, sweepers) && w in s.sweepers && s.sweepers[w] == Started && l.maxBlocksPerHour <= m
    requires Sweepable(l, s, 0, m)
    ensures Reachable(l, t, sweepers) && t == s.(sweepers := s.sweepers[w := Ready(Names(0, l.maxBlocksPerHour))])
    ensures Sweepable(l, t, 0, m)
  {
    t := ReachStep(l, s, sweepers, FindOrphans(w, Names(0, l.maxBlocksPerHour)));
    forall i | 0 <= i < m
      ensures Orphaned(t, l, Name(i))
    {
      assert Orphaned(s, l, Name(i));
    }
  }

  /** Every other sweeper passes the check, one count below the limit, and deletes one block. */
  lemma {:induction false} OtherSweepers(
    l: Limits, s: State, sweepers: set<WorkerId>, idle: set<WorkerId>, j: nat, m: nat)
    returns (t: State)
    requires Reachable(l, s, sweepers) && AllIdle(s, sweepers, idle) && s.deletionCount < l.maxBlocksPerHour
    requires j + |idle| == m && Sweepable(l, s, j, m)
    ensures Reachable(l, t, sweepers) && t.removed == s.removed + |idle| && t.lost == s.lost
    decreases |idle|
  {
    if idle == {} {
      t := s;
    } else {
      var w :| w in idle;
      t := StartSweep(l, s, sweepers, w, j, j + 1, m);
      t := DeleteNext(l, t, sweepers, w, Names(j, j + 1), j, m);
      t := OtherSweepers(l, t, sweepers, idle - {w}, j + 1, m);
    }
  }

  lemma ReachStep(l: Limits, s: State, sweepers: set<WorkerId>, step: Step) returns (t: State)
    requires Reachable(l, s, sweepers) && Enabled(l, s, step)
    ensures Reachable(l, t, sweepers) && t == Next(l, s, step)
  {
    var now, steps :| Legal(l, Init(now, sweepers), steps) && s == Run(l, Init(now, sweepers), steps);
    RunSnoc(l, Init(now, sweepers), steps, step);
    t := Next(l, s, step);
  }

  lemma {:induction false} RunSnoc(l: Limits, s: State, steps: seq<Step>, step: Step)
    requires Legal(l, s, steps) && Enabled(l, Run(l, s, steps), step)
    ensures Legal(l, s, steps + [step]) && Run(l, s, steps + [step]) == Next(l, Run(l, s, steps), step)
    decreases |steps|
  {
    if steps == [] {
      assert [step][1..] == [];
    } else {
      assert (steps + [step])[1..] == steps[1..] + [step];
      RunSnoc(l, Next(l, s, steps[0]), steps[1..], step);
    }
  }
}
