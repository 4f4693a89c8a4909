/** What every reachable state of the store keeps, whatever the interleaving
    and wherever a crash falls. */
module StoreSafety {
  import opened Bytes
  import opened Wrappers
  import opened ChunkIds
  import opened Index
  import opened Tables
  import opened RefCounts
  import opened Machine

  /** Every indexed chunk has an object file holding exactly the bytes it was
      stored with, of the indexed length, and no unlink is due for it. */
  ghost predicate Backed(h: Hash, s: State) {
    && s.past.blobs.Keys == s.t.chunks.Keys
    && s.past.storedAt.Keys == s.t.chunks.Keys
    && forall id | id in s.t.chunks :: BackedChunk(h, s, id)
  }

  ghost predicate BackedChunk(h: Hash, s: State, id: ChunkId)
    requires id in s.t.chunks && id in s.past.blobs
  {
    && id !in s.unlinking
    && s.t.chunks[id].chunkLen == |s.past.blobs[id]|
    && ObjectPath(id) in s.disk
    && s.disk[ObjectPath(id)] == ObjectFile(h, s.past.blobs[id])
  }

  ghost predicate WriterOk(h: Hash, s: State) {
    match s.writer
    case Idle => true
    case Writing(id, data, tmp) => id !in s.t.chunks && id !in s.unlinking && IsTmp(tmp) && |data| <= U64_MAX
    case Renamed(id, data) =>
      && id !in s.t.chunks && id !in s.unlinking && |data| <= U64_MAX
      && ObjectPath(id) in s.disk && s.disk[ObjectPath(id)] == ObjectFile(h, data)
  }

  ghost predicate PrunersOk(s: State) {
    forall p | p in s.pruners ::
      && s.pruners[p].at <= s.now
      && (forall u | u in s.pruners[p].listed :: u in s.past.ever)
      && (forall i, j | 0 <= i < j < |s.pruners[p].listed| :: s.pruners[p].listed[i] < s.pruners[p].listed[j])
  }

  ghost predicate Inv(h: Hash, s: State) {
    && Exact(s.t)
    && Backed(h, s)
    && WriterOk(h, s)
    && PrunersOk(s)
    && s.t.snapshots.Keys <= s.past.ever
  }

  // ---- one step ----------------------------------------------------------

  /** A step that changes no indexed chunk's record, bytes or file. */
  lemma BackedFrame(h: Hash, s: State, s': State)
    requires Backed(h, s) && s'.t.chunks.Keys == s.t.chunks.Keys
    requires s'.past.blobs == s.past.blobs && s'.past.storedAt == s.past.storedAt
    requires s'.unlinking <= s.unlinking
    requires forall id | id in s.t.chunks :: s'.t.chunks[id].chunkLen == s.t.chunks[id].chunkLen
    requires forall id | id in s.t.chunks && ObjectPath(id) in s.disk ::
               ObjectPath(id) in s'.disk && s'.disk[ObjectPath(id)] == s.disk[ObjectPath(id)]
    ensures Backed(h, s')
  {
    forall id | id in s'.t.chunks
      ensures BackedChunk(h, s', id)
    {
      assert BackedChunk(h, s, id);
    }
  }

  lemma TmpIsNoObject(file: Path)
    requires IsTmp(file)
    ensures forall id :: ObjectPath(id) != file
  {
    forall id
      ensures ObjectPath(id) != file
    {
      ObjectPathsDistinct(id, id);
    }
  }

  lemma OtherObjects(id: ChunkId)
    ensures forall c :: ObjectPath(c) == ObjectPath(id) <==> c == id
  {
    forall c
      ensures ObjectPath(c) == ObjectPath(id) <==> c == id
    {
      ObjectPathsDistinct(c, id);
    }
  }

  lemma TmpStepsKeepInv(h: Hash, s: State, step: Step)
    requires Inv(h, s) && Enabled(h, s, step)
    requires step.PutBegin? || step.PutWrite? || step.PutFail? || step.Sweep?
    ensures Inv(h, Apply(h, s, step))
  {
    if step.PutBegin? {
      TmpIsNoObject(TmpPath(step.id, step.unique));
    } else if step.Sweep? {
      TmpIsNoObject(step.file);
    } else if s.writer.Writing? {
      TmpIsNoObject(s.writer.tmp);
    }
    BackedFrame(h, s, Apply(h, s, step));
  }

  lemma RenameKeepsInv(h: Hash, s: State)
    requires Inv(h, s) && Enabled(h, s, PutRename)
    ensures Inv(h, DoPutRename(s))
  {
    TmpIsNoObject(s.writer.tmp);
    OtherObjects(s.writer.id);
    BackedFrame(h, s, DoPutRename(s));
  }

  lemma CommitKeepsInv(h: Hash, s: State)
    requires Inv(h, s) && Enabled(h, s, PutCommit)
    ensures Inv(h, DoPutCommit(s))
  {
    PutChunkExact(s.t, s.writer.id, |s.writer.data|);
    CommitBackedIff(h, s);
  }

  lemma PutSnapKeepsInv(h: Hash, s: State, u: Ulid, blob: Bytes, refs: seq<ChunkId>)
    requires Inv(h, s) && Enabled(h, s, PutSnap(u, blob, refs))
    ensures Inv(h, DoPutSnap(s, u, blob, refs))
  {
    var s' := DoPutSnap(s, u, blob, refs);
    if PutSnapshot(s.t, u, blob, refs).Ok? {
      PutSnapshotExactIff(s.t, u, blob, refs);
      BumpCounts(s.t.chunks, refs);
      BackedFrame(h, s, s');
    }
  }

  lemma PruneNextKeepsInv(h: Hash, s: State, p: nat)
    requires Inv(h, s) && Enabled(h, s, PruneNext(p))
    ensures Inv(h, DoPruneNext(s, p))
  {
    var s' := DoPruneNext(s, p);
    var u := DropsOf(s.pruners[p])[s.pruners[p].next];
    if u in s.t.snapshots {
      DeleteSnapshotExact(s.t, u);
      UnbumpCounts(s.t.chunks, RefsOf(s.t, u));
      BackedFrame(h, s, s');
    }
  }

  lemma ReclaimKeepsInv(h: Hash, s: State, s': State, gone: set<ChunkId>)
    requires Inv(h, s) && s.writer.Idle? && forall id | id in gone :: ZeroRef(s.t, id)
    requires s'.t.chunks == s.t.chunks - gone
    requires s'.t.snapshots == s.t.snapshots && s'.t.snapshotRefs == s.t.snapshotRefs
    requires s'.disk == s.disk && s'.writer == s.writer && s'.unlinking == s.unlinking + gone
    requires s'.pruners == s.pruners && s'.now == s.now && s'.past.ever == s.past.ever
    requires s'.past.blobs == s.past.blobs - gone && s'.past.storedAt == s.past.storedAt - gone
    ensures Inv(h, s')
  {
    DropUnreferencedExact(s.t, gone, s'.t);
    assert forall id | id in s'.t.chunks :: BackedChunk(h, s, id) && BackedChunk(h, s', id);
  }

  lemma UnlinkKeepsInv(h: Hash, s: State, id: ChunkId)
    requires Inv(h, s) && id in s.unlinking
    ensures Inv(h, DoUnlink(s, id))
  {
    OtherObjects(id);
    assert forall c | c in s.t.chunks :: BackedChunk(h, s, c);
    BackedFrame(h, s, DoUnlink(s, id));
  }

  lemma QuietStepsKeepInv(h: Hash, s: State, step: Step)
    requires Inv(h, s) && Enabled(h, s, step)
    requires step.Tick? || step.PruneList? || step.PruneEnd? || step.Crash?
    ensures Inv(h, Apply(h, s, step))
  {
    BackedFrame(h, s, Apply(h, s, step));
  }

  lemma StepKeepsInv(h: Hash, s: State, step: Step)
    requires Inv(h, s) && Enabled(h, s, step)
    ensures Inv(h, Apply(h, s, step))
  {
    match step
    case PutCommit => CommitKeepsInv(h, s);
    case PutSnap(u, blob, refs) => PutSnapKeepsInv(h, s, u, blob, refs);
    case PruneNext(p) => PruneNextKeepsInv(h, s, p);
    case Gc(grace) => ReclaimKeepsInv(h, s, DoGc(s, grace), Reclaimed(s.t, s.now, grace));
    case Delete(id) => ReclaimKeepsInv(h, s, DoDelete(s, id), {id});
    case Unlink(id) => UnlinkKeepsInv(h, s, id);
    case Tick(_) => QuietStepsKeepInv(h, s, step);
    case PruneList(_, _, _) => QuietStepsKeepInv(h, s, step);
    case PruneEnd(_) => QuietStepsKeepInv(h, s, step);
    case Crash => QuietStepsKeepInv(h, s, step);
    case PutRename => RenameKeepsInv(h, s);
    case _ => TmpStepsKeepInv(h, s, step);
  }

  /** The invariant holds after every run: any interleaving, any crashes. */
  lemma {:induction false} RunKeepsInv(h: Hash, run: Run)
    requires Legal(h, run)
    ensures Inv(h, After(h, run))
  {
    if run == [] {
      EmptyExact();
    } else {
      var k := |run| - 1;
      RunKeepsInv(h, run[..k]);
      StepKeepsInv(h, After(h, run[..k]), run[k]);
    }
  }

  // ---- reads ----------------------------------------------------------------

  /** `get_chunk`. */
  function GetChunk(h: Hash, t: Tables, disk: Disk, id: ChunkId): Result<Bytes, StoreError> {
    if id !in t.chunks then Err(ChunkNotFound(id))
    else if ObjectPath(id) !in disk then Err(MissingBlob(id))
    else
      var raw, len := disk[ObjectPath(id)], t.chunks[id].chunkLen;
      if |raw| < ID_LEN then Err(LengthMismatch(id, len, 0))
      else if |raw| - ID_LEN != len then Err(LengthMismatch(id, len, |raw| - ID_LEN))
      else if h(raw[ID_LEN..]) != raw[..ID_LEN] then Err(HashMismatch(id, h(raw[ID_LEN..])))
      else Ok(raw[ID_LEN..])
  }

  /** Whatever happened to the files, a read returns bytes only when the file
      is their hash and themselves, at the indexed length. */
  lemma GetChunkOkIff(h: Hash, t: Tables, disk: Disk, id: ChunkId, data: Bytes)
    ensures GetChunk(h, t, disk, id) == Ok(data)
       <==> id in t.chunks && |data| == t.chunks[id].chunkLen
            && ObjectPath(id) in disk && disk[ObjectPath(id)] == ObjectFile(h, data)
  {
    if ObjectPath(id) in disk {
      var raw := disk[ObjectPath(id)];
      if |raw| >= ID_LEN {
        assert raw == raw[..ID_LEN] + raw[ID_LEN..];
      }
      assert ObjectFile(h, data)[..ID_LEN] == h(data) && ObjectFile(h, data)[ID_LEN..] == data;
    }
  }

  /** In every reachable state, reading an indexed chunk returns exactly the
      bytes it was stored with, and any other identity is reported absent. */
  lemma ReadsAreExact(h: Hash, run: Run, id: ChunkId)
    requires Legal(h, run)
    ensures var s := After(h, run);
            && s.past.blobs.Keys == s.t.chunks.Keys
            && GetChunk(h, s.t, s.disk, id)
               == if id in s.past.blobs then Ok(s.past.blobs[id]) else Err(ChunkNotFound(id))
  {
    var s := After(h, run);
    RunKeepsInv(h, run);
    if id in s.t.chunks {
      assert BackedChunk(h, s, id);
      GetChunkOkIff(h, s.t, s.disk, id, s.past.blobs[id]);
    }
  }

  // ---- the two guards are needed ------------------------------------------

  /** An unlink that comes after its chunk was stored again loses the file:
      the store stays whole if and only if the chunk is not indexed. */
  lemma UnlinkKeepsStoreIff(h: Hash, s: State, id: ChunkId)
    requires Backed(h, s)
    ensures Backed(h, DoUnlink(s, id)) <==> id !in s.t.chunks
    ensures id in s.t.chunks ==> GetChunk(h, s.t, DoUnlink(s, id).disk, id) == Err(MissingBlob(id))
  {
    var s' := DoUnlink(s, id);
    if id in s.t.chunks {
      assert !BackedChunk(h, s', id);
    } else {
      forall c | c in s.t.chunks
        ensures BackedChunk(h, s', c)
      {
        assert BackedChunk(h, s, c);
        ObjectPathsDistinct(c, id);
      }
    }
  }

  /** The fallback for a `rename` that refuses to replace: the new bytes are
      discarded and the old object file stays. */
  function DoRenameRefused(s: State): State
    requires s.writer.Writing?
  {
    s.(writer := Renamed(s.writer.id, s.writer.data), disk := s.disk - {s.writer.tmp})
  }

  /** Committing after that fallback keeps the store whole if and only if the
      file left behind by an earlier, uncommitted write holds the same bytes,
      which two encryptions of one chunk under fresh nonces do not. */
  lemma RenameFallbackIff(h: Hash, s: State)
    requires Inv(h, s) && s.writer.Writing? && ObjectPath(s.writer.id) in s.disk
    ensures Backed(h, DoPutCommit(DoRenameRefused(s)))
       <==> s.disk[ObjectPath(s.writer.id)] == ObjectFile(h, s.writer.data)
  {
    var id := s.writer.id;
    TmpIsNoObject(s.writer.tmp);
    OtherObjects(id);
    var refused := DoRenameRefused(s);
    BackedFrame(h, s, refused);
    CommitBackedIff(h, refused);
  }

  lemma CommitBackedIff(h: Hash, s: State)
    requires Backed(h, s) && s.writer.Renamed? && s.writer.id !in s.t.chunks && s.writer.id !in s.unlinking
    requires ObjectPath(s.writer.id) in s.disk && |s.writer.data| <= U64_MAX
    ensures Backed(h, DoPutCommit(s)) <==> s.disk[ObjectPath(s.writer.id)] == ObjectFile(h, s.writer.data)
  {
    var s' := DoPutCommit(s);
    forall c | c in s.t.chunks
      ensures BackedChunk(h, s', c)
    {
      assert BackedChunk(h, s, c);
    }
    assert BackedChunk(h, s', s.writer.id) <==> s.disk[ObjectPath(s.writer.id)] == ObjectFile(h, s.writer.data);
  }
}
