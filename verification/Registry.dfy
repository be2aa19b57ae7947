/**
 The block registry and upload sessions: commits (internal/ingress/store.go), session cleanup and block
 sweeps (internal/gc/gc.go through cmd/ingest/gc_adapter.go) and the reference-count triggers, as a
 protocol. A transaction or a single statement is one atomic step; a cleanup or a sweep is many steps,
 and any number of them interleave with commits and with removals of versions.
 */
module Registry {

  import opened Options

  type Hash = string
  type TenantId = string
  type NodeId = string
  type SessionId = nat
  type VersionId = nat
  type WorkerId = nat

  // ---------------------------------------------------------------------------------------------
  // Tables
  // ---------------------------------------------------------------------------------------------

  /** A row of `cas_blocks`. */
  datatype BlockRow = BlockRow(refCount: int, createdAt: int)

  type Blocks = map<Hash, BlockRow>

  /** Primary key of `file_manifest_blocks`. */
  datatype EntryKey = EntryKey(version: VersionId, chunkIndex: nat)

  type Manifest = map<EntryKey, Hash>

  datatype Block = Block(hash: Hash, chunkIndex: nat)

  datatype Status = Initiated | Completed | ExpiredStatus

  datatype Session = Session(
    tenant: TenantId, node: Option<NodeId>, status: Status, expectedChunks: nat, expiresAt: int)

  /** The manifest entries that name `h`. */
  ghost function EntriesOf(m: Manifest, h: Hash): set<EntryKey> {
    set k | k in m && m[k] == h
  }

  ghost function Refs(m: Manifest, h: Hash): nat {
    |EntriesOf(m, h)|
  }

  /** Invariant I-1: every count is the number of manifest entries, and every entry has its row. */
  ghost predicate CountsExact(blocks: Blocks, m: Manifest) {
    && (forall h :: h in blocks ==> blocks[h].refCount == Refs(m, h))
    && (forall k :: k in m ==> m[k] in blocks)
  }

  /** `INSERT INTO cas_blocks ... ON CONFLICT DO NOTHING`: rows start at count 0. */
  function EnsureRows(blocks: Blocks, bs: seq<Block>, now: int): (r: Blocks)
    ensures forall h :: h in blocks ==> h in r && r[h] == blocks[h]
    ensures forall h :: h in r <==> h in blocks || exists i :: 0 <= i < |bs| && bs[i].hash == h
    ensures forall h :: h in r && h !in blocks ==> r[h] == BlockRow(0, now)
  {
    if bs == [] then blocks
    else
      var r := EnsureRows(blocks, bs[..|bs| - 1], now);
      var h := bs[|bs| - 1].hash;
      if h in r then r else r[h := BlockRow(0, now)]
  }

  /** The trigger on insert and delete of a manifest row. */
  function AddRef(blocks: Blocks, h: Hash, delta: int): Blocks
    requires h in blocks
  {
    blocks[h := blocks[h].(refCount := blocks[h].refCount + delta)]
  }

  datatype Tables = Tables(blocks: Blocks, manifest: Manifest)

  /** Insert manifest rows one by one, each firing its trigger; a duplicate key or missing row aborts. */
  function InsertEntries(t: Tables, vid: VersionId, bs: seq<Block>): Option<Tables> {
    if bs == [] then Some(t)
    else
      var r := InsertEntries(t, vid, bs[..|bs| - 1]);
      if r.None? then None
      else
        var b := bs[|bs| - 1];
        var key := EntryKey(vid, b.chunkIndex);
        if key in r.value.manifest || b.hash !in r.value.blocks then None
        else Some(Tables(AddRef(r.value.blocks, b.hash, 1), r.value.manifest[key := b.hash]))
  }

  /** Delete manifest rows one by one, each firing its trigger; a missing row aborts. */
  function DeleteEntries(t: Tables, keys: seq<EntryKey>): Option<Tables> {
    if keys == [] then Some(t)
    else
      var r := DeleteEntries(t, keys[..|keys| - 1]);
      if r.None? then None
      else
        var k := keys[|keys| - 1];
        if k !in r.value.manifest then r
        else
          var h := r.value.manifest[k];
          if h !in r.value.blocks then None
          else Some(Tables(AddRef(r.value.blocks, h, -1), r.value.manifest - {k}))
  }

  datatype CommitResult = Committed(tables: Tables) | Refused(reason: Refusal)

  datatype Refusal =
    NotFound | AlreadyCompleted | SessionExpired | TenantMismatch | WrongBlockCount | NoNode | DuplicateChunk

  /** `PgStore.CommitFile`: the checks in order, then all inserts; any failure rolls everything back. */
  function Commit(
    sessions: map<SessionId, Session>, t: Tables, now: int,
    tenant: TenantId, sid: SessionId, vid: VersionId, blocks: seq<Block>): CommitResult
  {
    if sid !in sessions then Refused(NotFound)
    else
      var rec := sessions[sid];
      if rec.status == Completed then Refused(AlreadyCompleted)
      else if now > rec.expiresAt then Refused(SessionExpired)
      else if rec.tenant != tenant then Refused(TenantMismatch)
      else if |blocks| != rec.expectedChunks then Refused(WrongBlockCount)
      else if rec.node.None? then Refused(NoNode)
      else
        var rows := Tables(EnsureRows(t.blocks, blocks, now), t.manifest);
        var r := InsertEntries(rows, vid, blocks);
        if r.None? then Refused(DuplicateChunk) else Committed(r.value)
  }

  // ---------------------------------------------------------------------------------------------
  // Counts stay exact
  // ---------------------------------------------------------------------------------------------

  lemma AddEntry(m: Manifest, k: EntryKey, h: Hash, g: Hash)
    requires k !in m
    ensures Refs(m[k := h], g) == Refs(m, g) + if g == h then 1 else 0
  {
    if g == h {
      assert EntriesOf(m[k := h], g) == EntriesOf(m, g) + {k};
    } else {
      assert EntriesOf(m[k := h], g) == EntriesOf(m, g);
    }
  }

  lemma DropEntry(m: Manifest, k: EntryKey, g: Hash)
    requires k in m
    ensures Refs(m - {k}, g) == Refs(m, g) - if g == m[k] then 1 else 0
  {
    if g == m[k] {
      assert EntriesOf(m - {k}, g) == EntriesOf(m, g) - {k};
    } else {
      assert EntriesOf(m - {k}, g) == EntriesOf(m, g);
    }
  }

  /** An entry-free hash has count 0, so inserting its row keeps the counts exact. */
  lemma EnsureRowsExact(blocks: Blocks, m: Manifest, bs: seq<Block>, now: int)
    requires CountsExact(blocks, m)
    ensures CountsExact(EnsureRows(blocks, bs, now), m)
  {
    var r := EnsureRows(blocks, bs, now);
    forall h | h in r && h !in blocks
      ensures Refs(m, h) == 0
    {
      assert EntriesOf(m, h) == {};
    }
  }

  lemma InsertOneExact(t: Tables, key: EntryKey, h: Hash)
    requires CountsExact(t.blocks, t.manifest) && key !in t.manifest && h in t.blocks
    ensures CountsExact(AddRef(t.blocks, h, 1), t.manifest[key := h])
  {
    forall g | g in t.blocks
      ensures AddRef(t.blocks, h, 1)[g].refCount == Refs(t.manifest[key := h], g)
    {
      AddEntry(t.manifest, key, h, g);
    }
  }

  lemma {:induction false} InsertEntriesExact(t: Tables, vid: VersionId, bs: seq<Block>)
    requires CountsExact(t.blocks, t.manifest) && InsertEntries(t, vid, bs).Some?
    ensures var r := InsertEntries(t, vid, bs).value; CountsExact(r.blocks, r.manifest)
  {
    if bs != [] {
      var init, b := bs[..|bs| - 1], bs[|bs| - 1];
      InsertEntriesExact(t, vid, init);
      InsertOneExact(InsertEntries(t, vid, init).value, EntryKey(vid, b.chunkIndex), b.hash);
    }
  }

  lemma DeleteOneExact(t: Tables, k: EntryKey)
    requires CountsExact(t.blocks, t.manifest) && k in t.manifest
    ensures CountsExact(AddRef(t.blocks, t.manifest[k], -1), t.manifest - {k})
  {
    var h := t.manifest[k];
    forall g | g in t.blocks
      ensures AddRef(t.blocks, h, -1)[g].refCount == Refs(t.manifest - {k}, g)
    {
      DropEntry(t.manifest, k, g);
    }
  }

  lemma {:induction false} DeleteEntriesExact(t: Tables, keys: seq<EntryKey>)
    requires CountsExact(t.blocks, t.manifest)
    ensures DeleteEntries(t, keys).Some?
    ensures var r := DeleteEntries(t, keys).value; CountsExact(r.blocks, r.manifest)
  {
    if keys != [] {
      var init, k := keys[..|keys| - 1], keys[|keys| - 1];
      DeleteEntriesExact(t, init);
      var r := DeleteEntries(t, init).value;
      if k in r.manifest {
        DeleteOneExact(r, k);
      }
    }
  }

  /** `DELETE ... WHERE block_hash = h AND ref_count = 0`: removes at most one row, and none that is referenced. */
  function HardDelete(blocks: Blocks, h: Hash): Blocks {
    if h in blocks && blocks[h].refCount == 0 then blocks - {h} else blocks
  }

  lemma HardDeleteExact(blocks: Blocks, m: Manifest, h: Hash)
    requires CountsExact(blocks, m)
    ensures CountsExact(HardDelete(blocks, h), m)
    ensures HardDelete(blocks, h) == if Refs(m, h) == 0 then map g | g in blocks && g != h :: blocks[g] else blocks
  {
    if h in blocks && blocks[h].refCount == 0 {
      forall k | k in m
        ensures m[k] != h
      {
        assert k in EntriesOf(m, m[k]);
      }
    }
  }
}
