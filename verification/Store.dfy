/** The mutable stores and the collector, each method proved to act as the registry's functions say. */
module Store {
  import opened Options
  import opened Registry
  import CommitLaws
  import Protocol = RegistryProtocol

  // ---------------------------------------------------------------------------------------------
  // PgStore.CommitFile
  // ---------------------------------------------------------------------------------------------

  class PgStore {
    var blocks: Blocks
    var manifest: Manifest
    var sessions: map<SessionId, Session>

    constructor ()
      ensures blocks == map[] && manifest == map[] && sessions == map[]
    {
      blocks, manifest, sessions := map[], map[], map[];
    }

    /**
     Commits exactly if the session is open to the tenant for that many blocks and no two entries collide; then
     the manifest has one entry more for every block, and every row counts as many references more as it is named.
     */
    method CommitFile(tenant: TenantId, sid: SessionId, vid: VersionId, bs: seq<Block>, now: int)
      returns (r: Option<Refusal>)
      modifies this
      ensures
        match Commit(old(sessions), Tables(old(blocks), old(manifest)), now, tenant, sid, vid, bs)
        case Refused(why) =>
          r == Some(why) && blocks == old(blocks) && manifest == old(manifest) && sessions == old(sessions)
        case Committed(t) =>
          && r == None && blocks == t.blocks && manifest == t.manifest
          && sessions == old(sessions)[sid := old(sessions)[sid].(status := Completed)]
      ensures r == None <==>
        && sid in old(sessions) && CommitLaws.Open(old(sessions)[sid], now, tenant, |bs|)
        && CommitLaws.IndicesDiffer(bs) && CommitLaws.PositionsFree(old(manifest), vid, bs)
      ensures r == None ==> CommitLaws.Recorded(old(manifest), manifest, vid, bs)
      ensures r == None ==> forall h :: h in blocks ==>
        blocks[h].refCount == CommitLaws.Before(old(blocks), h, now).refCount + CommitLaws.Naming(bs, h)
    {
      CommitLaws.RefusalsExactly(sessions, Tables(blocks, manifest), now, tenant, sid, vid, bs);
      if Commit(sessions, Tables(blocks, manifest), now, tenant, sid, vid, bs).Committed? {
        CommitLaws.CommitMeans(sessions, Tables(blocks, manifest), now, tenant, sid, vid, bs);
      }
      r := Transact(tenant, sid, vid, bs, now);
    }

    /** The transaction works on copies of the rows it touches; only a commit makes them visible. */
    method Transact(tenant: TenantId, sid: SessionId, vid: VersionId, bs: seq<Block>, now: int)
      returns (r: Option<Refusal>)
      modifies this
      ensures
        match Commit(old(sessions), Tables(old(blocks), old(manifest)), now, tenant, sid, vid, bs)
        case Refused(why) =>
          r == Some(why) && blocks == old(blocks) && manifest == old(manifest) && sessions == old(sessions)
        case Committed(t) =>
          && r == None && blocks == t.blocks && manifest == t.manifest
          && sessions == old(sessions)[sid := old(sessions)[sid].(status := Completed)]
    {
      if sid !in sessions {
        return Some(NotFound);
      }
      var rec := sessions[sid];
      if rec.status == Completed {
        return Some(AlreadyCompleted);
      }
      if now > rec.expiresAt {
        return Some(SessionExpired);
      }
      if rec.tenant != tenant {
        return Some(TenantMismatch);
      }
      if |bs| != rec.expectedChunks {
        return Some(WrongBlockCount);
      }
      if rec.node.None? {
        return Some(NoNode);
      }
      var rows := InsertRows(bs, now);
      var t := InsertManifest(rows, vid, bs);
      if t.None? {
        return Some(DuplicateChunk);
      }
      blocks, manifest := t.value.blocks, t.value.manifest;
      sessions := sessions[sid := rec.(status := Completed)];
      return None;
    }

    method InsertRows(bs: seq<Block>, now: int) returns (rows: Blocks)
      ensures rows == EnsureRows(blocks, bs, now)
    {
      rows := blocks;
      for i := 0 to |bs|
        invariant rows == EnsureRows(blocks, bs[..i], now)
      {
        assert bs[..i + 1][..i] == bs[..i];
        if bs[i].hash !in rows {
          rows := rows[bs[i].hash := BlockRow(0, now)];
        }
      }
      assert bs[..|bs|] == bs;
    }

    method InsertManifest(rows: Blocks, vid: VersionId, bs: seq<Block>) returns (t: Option<Tables>)
      ensures t == InsertEntries(Tables(rows, manifest), vid, bs)
    {
      ghost var start := Tables(rows, manifest);
      var cur := Tables(rows, manifest);
      for i := 0 to |bs|
        invariant InsertEntries(start, vid, bs[..i]) == Some(cur)
      {
        assert bs[..i + 1][..i] == bs[..i];
        var key := EntryKey(vid, bs[i].chunkIndex);
        if key in cur.manifest || bs[i].hash !in cur.blocks {
          InsertAborts(start, vid, bs, i + 1);
          return None;
        }
        cur := Tables(AddRef(cur.blocks, bs[i].hash, 1), cur.manifest[key := bs[i].hash]);
      }
      assert bs[..|bs|] == bs;
      return Some(cur);
    }
  }

  lemma {:induction false} InsertAborts(t: Tables, vid: VersionId, bs: seq<Block>, n: nat)
    requires n <= |bs| && InsertEntries(t, vid, bs[..n]).None?
    ensures InsertEntries(t, vid, bs).None?
    decreases |bs|
  {
    if n == |bs| {
      assert bs[..n] == bs;
    } else {
      assert bs[..|bs| - 1][..n] == bs[..n];
      InsertAborts(t, vid, bs[..|bs| - 1], n);
    }
  }

  // ---------------------------------------------------------------------------------------------
  // FakeStore.CommitFile
  // ---------------------------------------------------------------------------------------------

  class FakeStore {
    var sessions: map<SessionId, Session>
    var casSet: set<Hash>
    var nextVer: nat
    /** The version numbers handed out so far. */
    ghost var issued: seq<nat>

    /** Successful commits are numbered 1, 2, ..., n. */
    ghost predicate Valid()
      reads this
    {
      |issued| == nextVer && forall i :: 0 <= i < nextVer ==> issued[i] == i + 1
    }

    constructor ()
      ensures Valid() && sessions == map[] && casSet == {} && nextVer == 0
    {
      sessions, casSet, nextVer, issued := map[], {}, 0, [];
    }

    method CommitFile(tenant: TenantId, sid: SessionId, bs: seq<Block>, now: int) returns (r: Option<Refusal>, num: nat)
      requires Valid()
      modifies this
      ensures Valid()
      ensures r.Some? ==> sessions == old(sessions) && casSet == old(casSet) && issued == old(issued) && num == 0
      ensures r == Some(NotFound) <==> sid !in old(sessions)
      ensures sid in old(sessions) ==>
        var rec := old(sessions)[sid];
        var inTime := rec.status != Completed && now <= rec.expiresAt;
        && (r == Some(AlreadyCompleted) <==> rec.status == Completed)
        && (r == Some(SessionExpired) <==> rec.status != Completed && rec.expiresAt < now)
        && (r == Some(TenantMismatch) <==> inTime && rec.tenant != tenant)
        && (r == Some(WrongBlockCount) <==> inTime && rec.tenant == tenant && |bs| != rec.expectedChunks)
        && (r == None <==> inTime && rec.tenant == tenant && |bs| == rec.expectedChunks)
      ensures r.None? ==>
        && issued == old(issued) + [num]
        && casSet == old(casSet) + (set i | 0 <= i < |bs| :: bs[i].hash)
        && sessions == old(sessions)[sid := old(sessions)[sid].(status := Completed)]
    {
      if sid !in sessions {
        return Some(NotFound), 0;
      }
      var rec := sessions[sid];
      if rec.status == Completed {
        return Some(AlreadyCompleted), 0;
      }
      if now > rec.expiresAt {
        return Some(SessionExpired), 0;
      }
      if rec.tenant != tenant {
        return Some(TenantMismatch), 0;
      }
      if |bs| != rec.expectedChunks {
        return Some(WrongBlockCount), 0;
      }
      nextVer := nextVer + 1;
      issued := issued + [nextVer];
      var i := 0;
      while i < |bs|
        invariant i <= |bs|
        invariant casSet == old(casSet) + (set j | 0 <= j < i :: bs[j].hash)
        invariant sessions == old(sessions) && nextVer == old(nextVer) + 1 && issued == old(issued) + [nextVer]
      {
        casSet := casSet + {bs[i].hash};
        i := i + 1;
      }
      sessions := sessions[sid := rec.(status := Completed)];
      return None, nextVer;
    }
  }

  // ---------------------------------------------------------------------------------------------
  // GarbageCollector.processBatch, undisturbed
  // ---------------------------------------------------------------------------------------------

  /** One block of a batch: below the limit, still unreferenced, and its tombstone and blob went through. */
  function SweepOne(blocks: Blocks, count: nat, max: nat, h: Hash, failing: set<Hash>): (Blocks, nat) {
    if count < max && h in blocks && blocks[h].refCount == 0 && h !in failing then (blocks - {h}, count + 1)
    else (blocks, count)
  }

  function SweepAll(blocks: Blocks, count: nat, max: nat, batch: seq<Hash>, failing: set<Hash>): (Blocks, nat) {
    if batch == [] then (blocks, count)
    else
      var (b, c) := SweepAll(blocks, count, max, batch[..|batch| - 1], failing);
      SweepOne(b, c, max, batch[|batch| - 1], failing)
  }

  /** What a batch may have done so far to the rows and the counter. */
  ghost predicate Swept(
    blocks: Blocks, m: Manifest, count: nat, max: nat, batch: seq<Hash>, failing: set<Hash>, b: Blocks, c: nat)
  {
    && CountsExact(b, m)
    && b.Keys <= blocks.Keys && c == count + |blocks.Keys - b.Keys|
    && (count <= max ==> c <= max)
    && (forall h :: h in blocks && h !in b ==> h in batch && h !in failing && Refs(m, h) == 0)
  }

  /**
   A batch removes only listed, unreferenced rows whose blob deletion succeeded, counts each removal
   exactly once, stays within the limit, and keeps every reference count exact.
   */
  lemma {:induction false} SweepAllSound(
    blocks: Blocks, m: Manifest, count: nat, max: nat, batch: seq<Hash>, failing: set<Hash>)
    requires CountsExact(blocks, m)
    ensures
      var (b, c) := SweepAll(blocks, count, max, batch, failing);
      Swept(blocks, m, count, max, batch, failing, b, c)
  {
    if batch == [] {
      assert blocks.Keys - blocks.Keys == {};
    } else {
      var init := batch[..|batch| - 1];
      SweepAllSound(blocks, m, count, max, init, failing);
      var (b, c) := SweepAll(blocks, count, max, init, failing);
      SweepOneSound(blocks, m, count, max, batch, failing, b, c);
    }
  }

  lemma SweepOneSound(
    blocks: Blocks, m: Manifest, count: nat, max: nat, batch: seq<Hash>, failing: set<Hash>, b: Blocks, c: nat)
    requires batch != [] && Swept(blocks, m, count, max, batch[..|batch| - 1], failing, b, c)
    ensures
      var (b', c') := SweepOne(b, c, max, batch[|batch| - 1], failing);
      Swept(blocks, m, count, max, batch, failing, b', c')
  {
    var init, h := batch[..|batch| - 1], batch[|batch| - 1];
    assert batch == init + [h];
    if c < max && h in b && b[h].refCount == 0 && h !in failing {
      RowRemoved(blocks, b, m, h);
    }
  }

  lemma RowRemoved(blocks: Blocks, b: Blocks, m: Manifest, h: Hash)
    requires CountsExact(b, m) && b.Keys <= blocks.Keys && h in b && b[h].refCount == 0
    ensures CountsExact(b - {h}, m) && Refs(m, h) == 0
    ensures |blocks.Keys - (b - {h}).Keys| == |blocks.Keys - b.Keys| + 1
  {
    HardDeleteExact(b, m, h);
    assert h !in HardDelete(b, h);
    assert blocks.Keys - (b - {h}).Keys == (blocks.Keys - b.Keys) + {h};
  }

  /** The listed rows that a batch may remove. */
  ghost function Eligible(blocks: Blocks, batch: seq<Hash>, failing: set<Hash>): set<Hash> {
    set h | h in batch && h in blocks && blocks[h].refCount == 0 && h !in failing
  }

  lemma EligibleSnoc(blocks: Blocks, batch: seq<Hash>, h: Hash, failing: set<Hash>)
    ensures
      var more := h in blocks && blocks[h].refCount == 0 && h !in failing;
      Eligible(blocks, batch + [h], failing) == Eligible(blocks, batch, failing) + if more then {h} else {}
  {}

  /** One block after a whole batch: it goes if it is eligible and the limit is not reached. */
  lemma SweepOneExact(blocks: Blocks, count: nat, max: nat, batch: seq<Hash>, h: Hash, failing: set<Hash>)
    ensures
      var was, now := Eligible(blocks, batch, failing), Eligible(blocks, batch + [h], failing);
      SweepOne(blocks - was, count + |was|, max, h, failing) ==
        if count + |was| < max then (blocks - now, count + |now|) else (blocks - was, count + |was|)
  {
    var was := Eligible(blocks, batch, failing);
    EligibleSnoc(blocks, batch, h, failing);
    if h in blocks && blocks[h].refCount == 0 && h !in failing && h !in was {
      assert blocks - was - {h} == blocks - (was + {h});
    } else if h in was {
      assert was + {h} == was;
    }
  }

  /**
   A batch removes every listed, unreferenced row whose blob deletion succeeds, and no other row, up to the
   point `n` where the limit is reached; short of the limit that is all of them.
   */
  lemma {:induction false} SweepAllExact(blocks: Blocks, count: nat, max: nat, batch: seq<Hash>, failing: set<Hash>)
    returns (n: nat)
    ensures n <= |batch|
    ensures
      var (gone, (b, c)) := (Eligible(blocks, batch[..n], failing), SweepAll(blocks, count, max, batch, failing));
      && b == blocks - gone && c == count + |gone|
      && (n < |batch| ==> c >= max)
      && (c < max ==> gone == Eligible(blocks, batch, failing))
  {
    if batch == [] {
      n := 0;
      assert Eligible(blocks, batch[..0], failing) == {};
    } else {
      var init, h := batch[..|batch| - 1], batch[|batch| - 1];
      assert batch == init + [h];
      n := SweepAllExact(blocks, count, max, init, failing);
      assert init[..n] == batch[..n];
      if n == |init| {
        assert init[..n] == init;
        SweepOneExact(blocks, count, max, init, h, failing);
        if count + |Eligible(blocks, init, failing)| < max {
          n := n + 1;
          assert batch[..n] == batch;
        }
      }
    }
  }

  class GarbageCollector {
    const store: PgStore
    const maxBlocksPerHour: nat
    const dryRun: bool
    var deletionCount: nat

    constructor (store: PgStore, maxBlocksPerHour: int, dryRun: bool)
      ensures this.store == store && this.dryRun == dryRun && deletionCount == 0
      ensures this.maxBlocksPerHour == if maxBlocksPerHour <= 0 then 5000 else maxBlocksPerHour
    {
      this.store := store;
      this.maxBlocksPerHour := if maxBlocksPerHour <= 0 then 5000 else maxBlocksPerHour;
      this.dryRun := dryRun;
      deletionCount := 0;
    }

    /** `failing` holds the hashes whose tombstone cannot be published or whose blob cannot be deleted. */
    method ProcessBatch(batch: seq<Hash>, failing: set<Hash>)
      modifies this`deletionCount, store`blocks
      ensures dryRun ==> store.blocks == old(store.blocks) && deletionCount == old(deletionCount)
      ensures !dryRun ==>
        (store.blocks, deletionCount) ==
          SweepAll(old(store.blocks), old(deletionCount), maxBlocksPerHour, batch, failing)
    {
      ghost var blocks, count := store.blocks, deletionCount;
      for i := 0 to |batch|
        invariant dryRun ==> store.blocks == blocks && deletionCount == count
        invariant !dryRun ==>
          (store.blocks, deletionCount) == SweepAll(blocks, count, maxBlocksPerHour, batch[..i], failing)
      {
        assert batch[..i + 1][..i] == batch[..i];
        var h := batch[i];
        if deletionCount >= maxBlocksPerHour {
          if !dryRun {
            LimitStops(blocks, count, maxBlocksPerHour, batch, i, failing);
          }
          return;
        }
        var still := h in store.blocks && store.blocks[h].refCount == 0;
        if !still || dryRun || h in failing {
          continue;
        }
        store.blocks := store.blocks - {h};
        deletionCount := deletionCount + 1;
      }
      assert batch[..|batch|] == batch;
    }
  }

  lemma {:induction false} LimitStops(
    blocks: Blocks, count: nat, max: nat, batch: seq<Hash>, n: nat, failing: set<Hash>)
    requires n <= |batch| && SweepAll(blocks, count, max, batch[..n], failing).1 >= max
    ensures SweepAll(blocks, count, max, batch, failing) == SweepAll(blocks, count, max, batch[..n], failing)
    decreases |batch|
  {
    if n == |batch| {
      assert batch[..n] == batch;
    } else {
      assert batch[..|batch| - 1][..n] == batch[..n];
      LimitStops(blocks, count, max, batch[..|batch| - 1], n, failing);
    }
  }

  // ---------------------------------------------------------------------------------------------
  // The batch as a run of the protocol
  // ---------------------------------------------------------------------------------------------

  /** Some run of the protocol leads from `s` to `t`. */
  ghost predicate Leads(l: Protocol.Limits, s: Protocol.State, t: Protocol.State) {
    exists steps :: Protocol.Legal(l, s, steps) && t == Protocol.Run(l, s, steps)
  }

  lemma LeadsOn(
    l: Protocol.Limits, s: Protocol.State, t: Protocol.State, step: Protocol.Step)
    returns (u: Protocol.State)
    requires Leads(l, s, t) && Protocol.Enabled(l, t, step)
    ensures Leads(l, s, u) && u == Protocol.Next(l, t, step)
  {
    var steps :| Protocol.Legal(l, s, steps) && t == Protocol.Run(l, s, steps);
    Protocol.RunSnoc(l, s, steps, step);
    u := Protocol.Next(l, t, step);
  }

  /** The sweeper stands before `queue`, with the rows and the counter as given. */
  ghost predicate StandsBefore(
    s: Protocol.State, w: WorkerId, queue: seq<Hash>, rows: (Blocks, nat))
  {
    && w in s.sweepers && s.sweepers[w] == Protocol.Ready(queue)
    && (s.tables.blocks, s.deletionCount) == rows
  }

  /** Both checks of one block, with nothing in between. */
  lemma CheckBlock(
    l: Protocol.Limits, s0: Protocol.State, s: Protocol.State, w: WorkerId, queue: seq<Hash>)
    returns (t: Protocol.State)
    requires Leads(l, s0, s) && queue != [] && StandsBefore(s, w, queue, (s.tables.blocks, s.deletionCount))
    requires s.deletionCount < l.maxBlocksPerHour
    ensures Leads(l, s0, t) && t.tables == s.tables && t.deletionCount == s.deletionCount && w in t.sweepers
    ensures t.sweepers[w] ==
      if Protocol.Deletes(s, queue[0]) then Protocol.Doomed(queue[0], queue[1..]) else Protocol.Ready(queue[1..])
  {
    t := LeadsOn(l, s0, s, Protocol.RateCheck(w));
    t := LeadsOn(l, s0, t, Protocol.DoubleCheck(w));
  }

  /** The guarded delete of one block and its count. */
  lemma DeleteBlock(
    l: Protocol.Limits, s0: Protocol.State, s: Protocol.State, w: WorkerId, h: Hash, queue: seq<Hash>)
    returns (t: Protocol.State)
    requires Leads(l, s0, s) && w in s.sweepers && s.sweepers[w] == Protocol.Doomed(h, queue) && Protocol.Deletes(s, h)
    ensures Leads(l, s0, t) && t.tables.manifest == s.tables.manifest
    ensures StandsBefore(t, w, queue, (s.tables.blocks - {h}, s.deletionCount + 1))
  {
    t := LeadsOn(l, s0, s, Protocol.HardDeleteRow(w, true));
    t := LeadsOn(l, s0, t, Protocol.CountDeletion(w));
  }

  /** All steps of one block. */
  lemma SweepBlock(
    l: Protocol.Limits, s0: Protocol.State, s: Protocol.State, w: WorkerId, queue: seq<Hash>, failing: set<Hash>)
    returns (t: Protocol.State)
    requires Leads(l, s0, s) && queue != [] && StandsBefore(s, w, queue, (s.tables.blocks, s.deletionCount))
    requires s.deletionCount < l.maxBlocksPerHour
    ensures Leads(l, s0, t) && t.tables.manifest == s.tables.manifest
    ensures StandsBefore(t, w, queue[1..],
      SweepOne(s.tables.blocks, s.deletionCount, l.maxBlocksPerHour, queue[0], failing))
  {
    t := CheckBlock(l, s0, s, w, queue);
    if Protocol.Deletes(s, queue[0]) {
      if queue[0] in failing {
        t := LeadsOn(l, s0, t, Protocol.Abandon(w));
      } else {
        t := DeleteBlock(l, s0, t, w, queue[0], queue[1..]);
      }
    }
  }

  /** What `ProcessBatch` does is what the protocol does when the sweeper's steps are not interleaved. */
  lemma {:induction false} BatchIsARun(
    l: Protocol.Limits, s: Protocol.State, w: WorkerId, batch: seq<Hash>, n: nat,
    failing: set<Hash>)
    returns (t: Protocol.State)
    requires StandsBefore(s, w, batch, (s.tables.blocks, s.deletionCount)) && n <= |batch|
    ensures Leads(l, s, t) && t.tables.manifest == s.tables.manifest
    ensures
      var rows := SweepAll(s.tables.blocks, s.deletionCount, l.maxBlocksPerHour, batch[..n], failing);
      && (t.tables.blocks, t.deletionCount) == rows
      && (rows.1 < l.maxBlocksPerHour ==> StandsBefore(t, w, batch[n..], rows))
    decreases n
  {
    if n == 0 {
      t := s;
      assert Protocol.Run(l, s, []) == s && batch[0..] == batch;
    } else {
      t := BatchIsARun(l, s, w, batch, n - 1, failing);
      assert batch[..n][..n - 1] == batch[..n - 1] && batch[n - 1..][1..] == batch[n..];
      if t.deletionCount < l.maxBlocksPerHour {
        t := SweepBlock(l, s, t, w, batch[n - 1..], failing);
      }
    }
  }
}
