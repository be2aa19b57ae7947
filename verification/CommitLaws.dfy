/** What a commit does, stated on the session record, the block list and the tables themselves. */
module CommitLaws {
  import opened Options
  import opened Registry

  /** No two blocks of the list claim the same position of the file. */
  predicate IndicesDiffer(bs: seq<Block>) {
    forall i, j :: 0 <= i < j < |bs| ==> bs[i].chunkIndex != bs[j].chunkIndex
  }

  /** No position of the list is taken in the version's manifest. */
  predicate PositionsFree(m: Manifest, vid: VersionId, bs: seq<Block>) {
    forall i :: 0 <= i < |bs| ==> EntryKey(vid, bs[i].chunkIndex) !in m
  }

  /** `m'` is `m` and one entry for every block, naming that block's hash. */
  ghost predicate Recorded(m: Manifest, m': Manifest, vid: VersionId, bs: seq<Block>) {
    && (forall k :: k in m ==> k in m' && m'[k] == m[k])
    && (forall i :: 0 <= i < |bs| ==>
          EntryKey(vid, bs[i].chunkIndex) in m' && m'[EntryKey(vid, bs[i].chunkIndex)] == bs[i].hash)
    && (forall k :: k in m' ==> k in m || exists i :: 0 <= i < |bs| && k == EntryKey(vid, bs[i].chunkIndex))
  }

  /** The blocks of the list that name `h`, by position. */
  ghost function NamedAt(bs: seq<Block>, h: Hash): set<int> {
    set i | 0 <= i < |bs| && bs[i].hash == h
  }

  ghost function Naming(bs: seq<Block>, h: Hash): nat {
    |NamedAt(bs, h)|
  }

  /** A row counts one more reference for every block that names it, and changes in nothing else. */
  ghost predicate Counted(rows: Blocks, rows': Blocks, bs: seq<Block>) {
    && rows'.Keys == rows.Keys
    && forall h :: h in rows ==> rows'[h] == BlockRow(rows[h].refCount + Naming(bs, h), rows[h].createdAt)
  }

  /** The row of `h` before the commit counts its references: a row that is not there yet starts from none. */
  function Before(rows: Blocks, h: Hash, now: int): BlockRow {
    if h in rows then rows[h] else BlockRow(0, now)
  }

  lemma NamingSnoc(bs: seq<Block>, h: Hash)
    requires bs != []
    ensures Naming(bs, h) == Naming(bs[..|bs| - 1], h) + if bs[|bs| - 1].hash == h then 1 else 0
  {
    var n := |bs| - 1;
    if bs[n].hash == h {
      assert NamedAt(bs, h) == NamedAt(bs[..n], h) + {n};
    } else {
      assert NamedAt(bs, h) == NamedAt(bs[..n], h);
    }
  }

  lemma CountedSnoc(rows: Blocks, rows': Blocks, bs: seq<Block>)
    requires bs != [] && Counted(rows, rows', bs[..|bs| - 1]) && bs[|bs| - 1].hash in rows
    ensures Counted(rows, AddRef(rows', bs[|bs| - 1].hash, 1), bs)
  {
    forall h | h in rows
      ensures Naming(bs, h) == Naming(bs[..|bs| - 1], h) + if bs[|bs| - 1].hash == h then 1 else 0
    {
      NamingSnoc(bs, h);
    }
  }

  lemma RecordedSnoc(m: Manifest, m': Manifest, vid: VersionId, bs: seq<Block>)
    requires bs != [] && Recorded(m, m', vid, bs[..|bs| - 1])
    requires EntryKey(vid, bs[|bs| - 1].chunkIndex) !in m'
    ensures Recorded(m, m'[EntryKey(vid, bs[|bs| - 1].chunkIndex) := bs[|bs| - 1].hash], vid, bs)
  {
    var init, b := bs[..|bs| - 1], bs[|bs| - 1];
    assert forall i :: 0 <= i < |init| ==> init[i] == bs[i];
    assert bs == init + [b];
  }

  /** The last position is untaken after the others exactly if it is free and differs from them. */
  lemma LastPosition(m: Manifest, m': Manifest, vid: VersionId, bs: seq<Block>)
    requires bs != [] && Recorded(m, m', vid, bs[..|bs| - 1])
    requires IndicesDiffer(bs[..|bs| - 1]) && PositionsFree(m, vid, bs[..|bs| - 1])
    ensures EntryKey(vid, bs[|bs| - 1].chunkIndex) !in m' <==> IndicesDiffer(bs) && PositionsFree(m, vid, bs)
  {
    var init, b := bs[..|bs| - 1], bs[|bs| - 1];
    assert forall i :: 0 <= i < |init| ==> init[i] == bs[i];
    var key := EntryKey(vid, b.chunkIndex);
    if key in m' && key !in m {
      var i :| 0 <= i < |init| && key == EntryKey(vid, init[i].chunkIndex);
      assert bs[i].chunkIndex == bs[|bs| - 1].chunkIndex;
    }
  }

  /** One manifest row per block, or none at all if two blocks claim one position or a position is taken. */
  lemma {:induction false} InsertMeans(t: Tables, vid: VersionId, bs: seq<Block>)
    requires forall i :: 0 <= i < |bs| ==> bs[i].hash in t.blocks
    ensures
      var r := InsertEntries(t, vid, bs);
      && (r.Some? <==> IndicesDiffer(bs) && PositionsFree(t.manifest, vid, bs))
      && (r.Some? ==> Recorded(t.manifest, r.value.manifest, vid, bs) && Counted(t.blocks, r.value.blocks, bs))
  {
    if bs == [] {
      NothingCounted(t.blocks);
    } else {
      var init, b := bs[..|bs| - 1], bs[|bs| - 1];
      assert forall i :: 0 <= i < |init| ==> init[i] == bs[i];
      InsertMeans(t, vid, init);
      var r := InsertEntries(t, vid, init);
      if r.Some? {
        LastPosition(t.manifest, r.value.manifest, vid, bs);
        if EntryKey(vid, b.chunkIndex) !in r.value.manifest {
          RecordedSnoc(t.manifest, r.value.manifest, vid, bs);
          CountedSnoc(t.blocks, r.value.blocks, bs);
        }
      }
    }
  }

  lemma NothingCounted(rows: Blocks)
    ensures Counted(rows, rows, [])
  {
    forall h | h in rows
      ensures Naming([], h) == 0
    {
      assert NamedAt([], h) == {};
    }
  }

  /** The session can be committed by the tenant with a list of `n` blocks. */
  predicate Open(rec: Session, now: int, tenant: TenantId, n: nat) {
    && rec.status != Completed && now <= rec.expiresAt && rec.tenant == tenant && n == rec.expectedChunks
    && rec.node.Some?
  }

  /** Each refusal, from the session record, the block list and the taken positions alone. */
  lemma RefusalsExactly(
    sessions: map<SessionId, Session>, t: Tables, now: int, tenant: TenantId, sid: SessionId, vid: VersionId,
    bs: seq<Block>)
    ensures
      var r := Commit(sessions, t, now, tenant, sid, vid, bs);
      if sid !in sessions then r == Refused(NotFound)
      else
        var rec := sessions[sid];
        && (r == Refused(AlreadyCompleted) <==> rec.status == Completed)
        && (r == Refused(SessionExpired) <==> rec.status != Completed && rec.expiresAt < now)
        && (r == Refused(TenantMismatch) <==>
              rec.status != Completed && now <= rec.expiresAt && rec.tenant != tenant)
        && (r == Refused(WrongBlockCount) <==>
              && rec.status != Completed && now <= rec.expiresAt && rec.tenant == tenant
              && |bs| != rec.expectedChunks)
        && (r == Refused(NoNode) <==>
              && rec.status != Completed && now <= rec.expiresAt && rec.tenant == tenant
              && |bs| == rec.expectedChunks && rec.node == None)
        && (r == Refused(DuplicateChunk) <==>
              Open(rec, now, tenant, |bs|) && !(IndicesDiffer(bs) && PositionsFree(t.manifest, vid, bs)))
        && (r.Committed? <==> Open(rec, now, tenant, |bs|) && IndicesDiffer(bs) && PositionsFree(t.manifest, vid, bs))
  {
    InsertVerdict(t, now, vid, bs);
  }

  lemma InsertVerdict(t: Tables, now: int, vid: VersionId, bs: seq<Block>)
    ensures InsertEntries(Tables(EnsureRows(t.blocks, bs, now), t.manifest), vid, bs).Some? <==>
      IndicesDiffer(bs) && PositionsFree(t.manifest, vid, bs)
  {
    InsertMeans(Tables(EnsureRows(t.blocks, bs, now), t.manifest), vid, bs);
  }

  /**
   A successful commit adds to the manifest one entry for every block of the list and nothing else; every
   block has its row afterwards, no other row appears or goes, and each row's count grows by the number of
   blocks that name it, a new row's from zero.
   */
  lemma CommitMeans(
    sessions: map<SessionId, Session>, t: Tables, now: int, tenant: TenantId, sid: SessionId, vid: VersionId,
    bs: seq<Block>)
    requires Commit(sessions, t, now, tenant, sid, vid, bs).Committed?
    ensures
      var t' := Commit(sessions, t, now, tenant, sid, vid, bs).tables;
      && Recorded(t.manifest, t'.manifest, vid, bs)
      && (forall h :: h in t'.blocks <==> h in t.blocks || exists i :: 0 <= i < |bs| && bs[i].hash == h)
      && (forall h :: h in t'.blocks ==>
            && t'.blocks[h].refCount == Before(t.blocks, h, now).refCount + Naming(bs, h)
            && t'.blocks[h].createdAt == Before(t.blocks, h, now).createdAt)
  {
    InsertMeans(Tables(EnsureRows(t.blocks, bs, now), t.manifest), vid, bs);
  }

  // ---------------------------------------------------------------------------------------------
  // Removal of manifest entries
  // ---------------------------------------------------------------------------------------------

  /** Deleting the listed entries removes exactly those, and leaves the registry without them. */
  lemma {:induction false} DeleteMeans(t: Tables, keys: seq<EntryKey>)
    requires DeleteEntries(t, keys).Some?
    ensures
      var r := DeleteEntries(t, keys).value;
      && (forall k :: k in r.manifest <==> k in t.manifest && k !in keys)
      && (forall k :: k in r.manifest ==> r.manifest[k] == t.manifest[k])
      && r.blocks.Keys == t.blocks.Keys
      && (forall h :: h in r.blocks ==> r.blocks[h].createdAt == t.blocks[h].createdAt)
  {
    if keys != [] {
      var init, k := keys[..|keys| - 1], keys[|keys| - 1];
      assert keys == init + [k];
      DeleteMeans(t, init);
    }
  }
}
