/** The chunk store over its tables of raw bytes and its object files, each
    operation proved to do to the decoded tables exactly what the transaction
    functions of module Tables say. */
module ChunkStore {
  import opened Bytes
  import opened Wrappers
  import opened ChunkIds
  import opened Index
  import opened Tables
  import opened RefCounts
  import opened Machine
  import opened StoreSafety
  import G = GarbageCollection
  import R = Retention
  import T = Tables

  // ---- raw tables ------------------------------------------------------------

  type Raw = map<ChunkId, Bytes>

  function Entries(raw: Raw): Chunks {
    map id | id in raw :: DecodeEntry(raw[id])
  }

  /** `decode_mark`: a value of any other width reads as the epoch. */
  function DecodeMark(raw: Bytes): i64 {
    if |raw| == 8 then ReadI64(raw) else 0
  }

  function Marks(raw: Raw): map<ChunkId, i64> {
    map id | id in raw :: DecodeMark(raw[id])
  }

  lemma EntriesInsert(raw: Raw, id: ChunkId, e: IndexEntry)
    ensures Entries(raw[id := WireValue(e)]) == Entries(raw)[id := e]
  {
    EntryRoundTrip(e);
  }

  // ---- outcomes ----------------------------------------------------------------

  /** What the file system does to a write. */
  datatype Io = Works | WriteFails | RenameFails

  datatype IoFailure = IoError(path: Path)

  datatype DeleteError = Refused(e: StoreError) | NotUnlinked(path: Path)

  datatype GcOutcome = GcOutcome(reclaimed: seq<ChunkId>, bytesReclaimed: nat, pending: nat)

  datatype PruneOutcome = PruneOutcome(kept: seq<Ulid>, dropped: seq<Ulid>)

  datatype Status = Status(snapshotsTotal: nat, chunksUnique: nat, storeBytes: nat, zeroRefChunks: nat)

  /** A list of exactly the identities of a set, each once. */
  ghost predicate Lists(l: seq<ChunkId>, ids: set<ChunkId>) {
    |l| == |ids| && forall id :: id in l <==> id in ids
  }

  type Dead = seq<(ChunkId, u64)>

  function DeadIds(dead: Dead): (l: seq<ChunkId>)
    ensures |l| == |dead| && forall i | 0 <= i < |l| :: l[i] == dead[i].0
  {
    seq<ChunkId>(|dead|, i requires 0 <= i < |dead| => dead[i].0)
  }

  function DeadBytes(dead: Dead): nat {
    if dead == [] then 0 else DeadBytes(dead[..|dead| - 1]) + dead[|dead| - 1].1
  }

  /** One of the object files of `ids`. */
  ghost predicate IsObjectOf(ids: seq<ChunkId>, path: Path) {
    exists i :: 0 <= i < |ids| && ObjectPath(ids[i]) == path
  }

  ghost predicate Unlinked(before: Disk, after: Disk, ids: seq<ChunkId>) {
    && (forall path :: path in after <==> path in before && !IsObjectOf(ids, path))
    && (forall path | path in after :: after[path] == before[path])
  }

  lemma UnlinkedSnoc(before: Disk, after: Disk, ids: seq<ChunkId>, id: ChunkId)
    requires Unlinked(before, after, ids)
    ensures Unlinked(before, after - {ObjectPath(id)}, ids + [id])
  {
    var ids' := ids + [id];
    forall path
      ensures IsObjectOf(ids', path) <==> IsObjectOf(ids, path) || ObjectPath(id) == path
    {
      assert ids'[|ids|] == id;
      if IsObjectOf(ids, path) {
        var i :| 0 <= i < |ids| && ObjectPath(ids[i]) == path;
        assert ids'[i] == ids[i];
      }
    }
  }

  lemma ListsSnoc(l: seq<ChunkId>, ids: set<ChunkId>, id: ChunkId)
    requires Lists(l, ids) && id !in ids
    ensures Lists(l + [id], ids + {id})
  {}

  lemma DeadSnoc(dead: Dead, id: ChunkId, len: u64)
    ensures DeadIds(dead + [(id, len)]) == DeadIds(dead) + [id]
    ensures DeadBytes(dead + [(id, len)]) == DeadBytes(dead) + len
  {
    assert (dead + [(id, len)])[..|dead|] == dead;
  }

  // ---- gc's passes over the tables -----------------------------------------------

  /** What the first pass makes of a mark. */
  datatype Verdict = Condemned | Waiting | Stale

  function VerdictOn(t: Tables, now: i64, grace: nat, id: ChunkId): Verdict
    requires id in t.gcMarks
  {
    if !ZeroRef(t, id) then Stale else if SatSub(now, t.gcMarks[id]) >= GraceMs(grace) then Condemned else Waiting
  }

  predicate Unmarked(t: Tables, id: ChunkId) {
    ZeroRef(t, id) && id !in t.gcMarks
  }

  /** `ids` are the marks gone through, all but `todo`, with verdict `v`. */
  ghost predicate Sorted(t: Tables, now: i64, grace: nat, todo: set<ChunkId>, v: Verdict, ids: set<ChunkId>) {
    forall id :: id in ids <==> id in t.gcMarks && id !in todo && VerdictOn(t, now, grace, id) == v
  }

  lemma SortStep(t: Tables, now: i64, grace: nat, todo: set<ChunkId>, v: Verdict, ids: set<ChunkId>, id: ChunkId)
    requires Sorted(t, now, grace, todo, v, ids) && id in t.gcMarks && id in todo
    ensures Sorted(t, now, grace, todo - {id}, v, if VerdictOn(t, now, grace, id) == v then ids + {id} else ids)
  {}

  lemma CondemnStep(t: Tables, dead: Dead, gone: set<ChunkId>, id: ChunkId)
    requires Lists(DeadIds(dead), gone) && gone <= t.chunks.Keys && DeadBytes(dead) == G.SumOver(t.chunks, gone)
    requires id in t.chunks && id !in gone
    ensures var dead', gone' := dead + [(id, t.chunks[id].chunkLen)], gone + {id};
            Lists(DeadIds(dead'), gone') && DeadBytes(dead') == G.SumOver(t.chunks, gone')
  {
    ListsSnoc(DeadIds(dead), gone, id);
    DeadSnoc(dead, id, t.chunks[id].chunkLen);
    G.SumRemove(t.chunks, gone + {id}, id);
    assert gone + {id} - {id} == gone;
  }

  /** The first pass: each mark stands, or is dropped, and an aged one
      condemns its chunk. */
  method Reconcile(t: Tables, now: i64, grace: nat)
    returns (dead: Dead, stale: set<ChunkId>, pending: nat, ghost waiting: set<ChunkId>)
    ensures Lists(DeadIds(dead), Reclaimed(t, now, grace))
    ensures Reclaimed(t, now, grace) <= t.chunks.Keys && DeadBytes(dead) == G.SumOver(t.chunks, Reclaimed(t, now, grace))
    ensures pending == |waiting|
    ensures Sorted(t, now, grace, {}, Stale, stale) && Sorted(t, now, grace, {}, Waiting, waiting)
  {
    var graceMs := GraceMs(grace);
    var todo := t.gcMarks.Keys;
    ghost var gone: set<ChunkId> := {};
    dead, stale, pending, waiting := [], {}, 0, {};
    while todo != {}
      invariant todo <= t.gcMarks.Keys && pending == |waiting|
      invariant Sorted(t, now, grace, todo, Condemned, gone)
      invariant Sorted(t, now, grace, todo, Waiting, waiting)
      invariant Sorted(t, now, grace, todo, Stale, stale)
      invariant Lists(DeadIds(dead), gone) && gone <= t.chunks.Keys && DeadBytes(dead) == G.SumOver(t.chunks, gone)
      decreases |todo|
    {
      var id :| id in todo;
      SortStep(t, now, grace, todo, Condemned, gone, id);
      SortStep(t, now, grace, todo, Waiting, waiting, id);
      SortStep(t, now, grace, todo, Stale, stale, id);
      todo := todo - {id};
      if id !in t.chunks || t.chunks[id].refcount != 0 {
        stale := stale + {id};
      } else if SatSub(now, t.gcMarks[id]) >= graceMs {
        CondemnStep(t, dead, gone, id);
        dead, gone := dead + [(id, t.chunks[id].chunkLen)], gone + {id};
      } else {
        pending, waiting := pending + 1, waiting + {id};
      }
    }
    assert gone == Reclaimed(t, now, grace);
  }

  /** The second pass: chunks unreferenced and not marked yet. */
  method FindUnmarked(t: Tables) returns (newly: set<ChunkId>, pending: nat)
    ensures forall id :: id in newly <==> Unmarked(t, id)
    ensures pending == |newly|
  {
    var todo := t.chunks.Keys;
    newly, pending := {}, 0;
    while todo != {}
      invariant todo <= t.chunks.Keys
      invariant pending == |newly| && forall id :: id in newly <==> id !in todo && Unmarked(t, id)
      decreases |todo|
    {
      var id :| id in todo;
      todo := todo - {id};
      if t.chunks[id].refcount == 0 && id !in t.gcMarks {
        newly, pending := newly + {id}, pending + 1;
      }
    }
  }

  lemma MarkAfterGc(t: Tables, now: i64, grace: nat, id: ChunkId)
    ensures var after := GcTables(t, now, grace).gcMarks;
            if id in t.gcMarks
            then (id in after <==> VerdictOn(t, now, grace, id) == Waiting) && (id in after ==> after[id] == t.gcMarks[id])
            else (id in after <==> Unmarked(t, id)) && (id in after ==> after[id] == now)
  {}

  lemma MarkRoundTrip(at: i64)
    ensures DecodeMark(I64Le(at)) == at
  {
    WireIntegers(0, 0, at);
  }

  /** The mark table after the transaction: standing marks and new ones. */
  lemma MarksAfterGc(t: Tables, gcMarks: Raw, marks: Raw, now: i64, grace: nat,
                     stale: set<ChunkId>, waiting: set<ChunkId>, newly: set<ChunkId>)
    requires t.gcMarks == Marks(gcMarks)
    requires Sorted(t, now, grace, {}, Stale, stale) && Sorted(t, now, grace, {}, Waiting, waiting)
    requires forall id :: id in newly <==> Unmarked(t, id)
    requires marks == gcMarks - Reclaimed(t, now, grace) - stale + map id | id in newly :: I64Le(now)
    ensures Marks(marks) == GcTables(t, now, grace).gcMarks
  {
    var after := GcTables(t, now, grace).gcMarks;
    MarkRoundTrip(now);
    forall id
      ensures id in marks <==> id in after
      ensures id in marks ==> DecodeMark(marks[id]) == after[id]
    {
      MarkAfterGc(t, now, grace, id);
      if id in t.gcMarks {
        assert id in gcMarks && id !in newly;
        assert VerdictOn(t, now, grace, id) == Condemned <==> id in Reclaimed(t, now, grace);
      }
    }
  }

  lemma ChunksAfterGc(t: Tables, chunks: Raw, now: i64, grace: nat)
    requires t.chunks == Entries(chunks)
    ensures Entries(chunks - Reclaimed(t, now, grace)) == GcTables(t, now, grace).chunks
  {}

  lemma BytesConserved(t: Tables, now: i64, grace: nat)
    ensures Reclaimed(t, now, grace) <= t.chunks.Keys
    ensures G.SumLen(t.chunks) == G.SumLen(GcTables(t, now, grace).chunks) + G.SumOver(t.chunks, Reclaimed(t, now, grace))
  {
    G.GcSoundAndComplete(t, now, grace);
  }

  lemma PendingCount(t: Tables, now: i64, grace: nat, waiting: set<ChunkId>, newly: set<ChunkId>)
    requires Sorted(t, now, grace, {}, Waiting, waiting) && forall id :: id in newly <==> Unmarked(t, id)
    ensures |GcTables(t, now, grace).gcMarks| == |waiting| + |newly|
  {
    assert waiting !! newly;
    assert GcTables(t, now, grace).gcMarks.Keys == waiting + newly;
  }

  lemma AreReclaimable(t: Tables, now: i64, grace: nat, dead: Dead, n: nat)
    requires Lists(DeadIds(dead), Reclaimed(t, now, grace)) && n <= |dead|
    ensures forall id | id in DeadIds(dead[..n]) :: Reclaimable(t, now, grace, id)
    ensures forall i | 0 <= i < |dead| :: Reclaimable(t, now, grace, dead[i].0)
  {
    forall i | 0 <= i < |dead|
      ensures dead[i].0 in Reclaimed(t, now, grace)
    {
      assert DeadIds(dead)[i] in DeadIds(dead);
    }
    assert forall i | 0 <= i < n :: DeadIds(dead[..n])[i] == dead[i].0;
  }

  // ---- the store -----------------------------------------------------------------

  ghost predicate Wide(raw: Raw, width: nat) {
    forall id | id in raw :: |raw[id]| == width
  }

  /** Tables of the right widths hold exactly the encodings of what they
      decode to. */
  lemma RawIsCanonical(raw: Raw)
    ensures Wide(raw, VALUE_SIZE) ==> forall id | id in raw :: raw[id] == WireValue(Entries(raw)[id])
    ensures Wide(raw, 8) ==> forall id | id in raw :: raw[id] == I64Le(Marks(raw)[id])
  {
    forall id | id in raw
      ensures |raw[id]| == VALUE_SIZE ==> raw[id] == WireValue(DecodeEntry(raw[id]))
      ensures |raw[id]| == 8 ==> raw[id] == I64Le(DecodeMark(raw[id]))
    {
      WireRoundTrip(raw[id]);
      if |raw[id]| == 8 {
        WireIntegersUnique(raw[id][..4], raw[id]);
      }
    }
  }

  class ChunkStore {
    const h: Hash
    var chunks: Raw
    var snapshots: map<Ulid, Bytes>
    var snapshotRefs: map<Ulid, Bytes>
    var gcMarks: Raw
    var disk: Disk

    ghost predicate Valid()
      reads this
    {
      Wide(chunks, VALUE_SIZE) && Wide(gcMarks, 8)
    }

    function View(): Tables
      reads this
    {
      Tables(Entries(chunks), snapshots, snapshotRefs, Marks(gcMarks))
    }

    constructor (h: Hash)
      ensures Valid() && this.h == h && View() == EMPTY && disk == map[]
    {
      this.h := h;
      chunks, snapshots, snapshotRefs, gcMarks, disk := map[], map[], map[], map[], map[];
    }

    /** `write_object`: a temporary file in the shard, filled, then renamed over
        whatever the object path holds. If the rename is refused with a file
        already there, that file stays and the write counts as done. */
    method WriteObject(id: ChunkId, data: Bytes, unique: string, io: Io) returns (r: Result<(), IoFailure>)
      modifies this`disk
      ensures io.Works? ==> r.Ok? && disk == (old(disk) - {TmpPath(id, unique)})[ObjectPath(id) := ObjectFile(h, data)]
      ensures !io.Works? ==> disk == old(disk) - {TmpPath(id, unique)}
      ensures r.Ok? <==> io.Works? || (io.RenameFails? && ObjectPath(id) in old(disk))
    {
      var final, tmp := ObjectPath(id), TmpPath(id, unique);
      ObjectPathsDistinct(id, id);
      assert final != tmp;
      disk := disk[tmp := []];
      if io.WriteFails? {
        disk := disk - {tmp};
        return Err(IoError(tmp));
      }
      disk := disk[tmp := h(data)];
      disk := disk[tmp := disk[tmp] + data];
      if io.RenameFails? {
        disk := disk - {tmp};
        return if final in disk then Ok(()) else Err(IoError(final));
      }
      disk := (disk - {tmp})[final := disk[tmp]];
      r := Ok(());
    }

    /** `put_chunk`: new chunks only, at refcount zero; an indexed one is left
        untouched, and a failed write leaves the index as it was. */
    method PutChunk(id: ChunkId, data: Bytes, unique: string, io: Io) returns (r: Result<bool, IoFailure>)
      requires Valid() && |data| <= U64_MAX
      modifies this`disk, this`chunks
      ensures Valid()
      ensures r.Ok? && r.value <==> View() != old(View())
      ensures id in old(chunks) ==> r == Ok(false) && unchanged(this)
      ensures id !in old(chunks) ==>
                && View() == (if r.Ok? then PutChunkTables(old(View()), id, |data|) else old(View()))
                && (io.Works? ==> r.Ok? && disk == (old(disk) - {TmpPath(id, unique)})[ObjectPath(id) := ObjectFile(h, data)])
                && (!io.Works? ==> disk == old(disk) - {TmpPath(id, unique)})
                && (r.Err? <==> io.WriteFails? || (io.RenameFails? && ObjectPath(id) !in old(disk)))
    {
      if id in chunks {
        return Ok(false);
      }
      var written := WriteObject(id, data, unique, io);
      if written.Err? {
        return Err(written.error);
      }
      var entry := IndexEntry(|data|, 0);
      EntriesInsert(chunks, id, entry);
      var raw := ToWireValue(entry);
      chunks := chunks[id := raw[..]];
      assert id in View().chunks;
      r := Ok(true);
    }

    /** `get_chunk`: the length against the index and the bytes against their
        header, or the reason why not. */
    method GetChunk(id: ChunkId) returns (r: Result<Bytes, StoreError>)
      ensures r == StoreSafety.GetChunk(h, View(), disk, id)
    {
      if id !in chunks {
        return Err(ChunkNotFound(id));
      }
      var entry := DecodeEntry(chunks[id]);
      var path := ObjectPath(id);
      if path !in disk {
        return Err(MissingBlob(id));
      }
      var raw := disk[path];
      if |raw| < ID_LEN {
        return Err(LengthMismatch(id, entry.chunkLen, 0));
      }
      var header, data := raw[..ID_LEN], raw[ID_LEN..];
      if |data| != entry.chunkLen {
        return Err(LengthMismatch(id, entry.chunkLen, |data|));
      }
      var actual := h(data);
      if actual != header {
        return Err(HashMismatch(id, actual));
      }
      r := Ok(data);
    }

    /** `put_snapshot_as`: all or nothing. */
    method PutSnapshotAs(u: Ulid, blob: Bytes, refs: seq<ChunkId>) returns (r: Result<(), StoreError>)
      requires Valid()
      modifies this`chunks, this`snapshots, this`snapshotRefs
      ensures Valid()
      ensures r.Ok? ==> PutSnapshot(old(View()), u, blob, refs) == Ok(View())
      ensures r.Err? ==> PutSnapshot(old(View()), u, blob, refs) == Err(r.error) && unchanged(this)
    {
      if u in snapshots {
        return Err(SnapshotExists(u));
      }
      var bumped := BumpAll(refs);
      if bumped.Err? {
        return Err(UnknownChunkRef(u, bumped.error));
      }
      var refBytes := JoinAll(refs);
      chunks := bumped.value;
      snapshotRefs := snapshotRefs[u := refBytes];
      snapshots := snapshots[u := blob];
      r := Ok(());
    }

    static method JoinAll(refs: seq<ChunkId>) returns (refBytes: Bytes)
      ensures refBytes == JoinRefs(refs)
    {
      refBytes := [];
      for i := 0 to |refs|
        invariant refBytes + JoinRefs(refs[i..]) == JoinRefs(refs)
      {
        assert refs[i..][1..] == refs[i + 1..];
        assert refBytes + (refs[i] + JoinRefs(refs[i + 1..])) == refBytes + refs[i] + JoinRefs(refs[i + 1..]);
        refBytes := refBytes + refs[i];
      }
      assert JoinRefs(refs[|refs|..]) == [];
    }

    method BumpAll(refs: seq<ChunkId>) returns (r: Result<Raw, ChunkId>)
      requires Valid()
      ensures r.Ok? ==> Wide(r.value, VALUE_SIZE) && Bump(Entries(chunks), refs) == Ok(Entries(r.value))
      ensures r.Err? ==> Bump(Entries(chunks), refs) == Err(r.error)
    {
      var table := chunks;
      for i := 0 to |refs|
        invariant Wide(table, VALUE_SIZE) && Bump(Entries(chunks), refs) == Bump(Entries(table), refs[i..])
      {
        var id := refs[i];
        assert refs[i..][0] == id && refs[i..][1..] == refs[i + 1..];
        if id !in table {
          return Err(id);
        }
        var bumped := AddRef(DecodeEntry(table[id]));
        EntriesInsert(table, id, bumped);
        var raw := ToWireValue(bumped);
        table := table[id := raw[..]];
      }
      r := Ok(table);
    }

    /** `delete_snapshot`: the row is re-split, and every whole identity in it
        gives its reference back. */
    method DeleteSnapshot(u: Ulid) returns (r: Result<(), StoreError>)
      requires Valid()
      modifies this`chunks, this`snapshots, this`snapshotRefs
      ensures Valid()
      ensures r.Ok? ==> T.DeleteSnapshot(old(View()), u) == Ok(View())
      ensures r.Err? ==> T.DeleteSnapshot(old(View()), u) == Err(r.error) && unchanged(this)
    {
      if u !in snapshots {
        return Err(SnapshotNotFound(u));
      }
      snapshots := snapshots - {u};
      var row := if u in snapshotRefs then snapshotRefs[u] else [];
      snapshotRefs := snapshotRefs - {u};
      chunks := UnbumpAll(row);
      r := Ok(());
    }

    method UnbumpAll(refBytes: Bytes) returns (table: Raw)
      requires Valid()
      ensures Wide(table, VALUE_SIZE) && Entries(table) == Unbump(Entries(chunks), SplitRefs(refBytes))
    {
      var row := refBytes;
      table := chunks;
      while |row| >= ID_LEN
        invariant Wide(table, VALUE_SIZE)
        invariant Unbump(Entries(chunks), SplitRefs(refBytes)) == Unbump(Entries(table), SplitRefs(row))
        decreases |row|
      {
        var id: ChunkId := row[..ID_LEN];
        assert SplitRefs(row)[0] == id && SplitRefs(row)[1..] == SplitRefs(row[ID_LEN..]);
        row := row[ID_LEN..];
        if id in table {
          var dropped := DropRef(DecodeEntry(table[id]));
          EntriesInsert(table, id, dropped);
          var raw := ToWireValue(dropped);
          table := table[id := raw[..]];
        }
      }
    }

    /** `zero_ref_chunks`. */
    method ZeroRefChunks() returns (out: seq<ChunkId>)
      ensures Lists(out, set id | id in chunks && ZeroRef(View(), id))
    {
      out := [];
      var todo := chunks.Keys;
      ghost var found: set<ChunkId> := {};
      while todo != {}
        invariant todo <= chunks.Keys && Lists(out, found)
        invariant forall id :: id in found <==> id in chunks && id !in todo && ZeroRef(View(), id)
        decreases |todo|
      {
        var id :| id in todo;
        todo := todo - {id};
        if DecodeEntry(chunks[id]).refcount == 0 {
          ListsSnoc(out, found, id);
          out, found := out + [id], found + {id};
        }
      }
      assert found == set id | id in chunks && ZeroRef(View(), id);
    }

    /** `delete_chunk`. The files in `stuck` cannot be unlinked; one that is
        missing need not be. */
    method DeleteChunk(id: ChunkId, stuck: set<Path>) returns (r: Result<(), DeleteError>)
      requires Valid()
      modifies this`chunks, this`disk
      ensures Valid()
      ensures T.DeleteChunk(old(View()), id).Ok? ==>
                && T.DeleteChunk(old(View()), id) == Ok(View())
                && (r.Ok? <==> ObjectPath(id) !in old(disk) || ObjectPath(id) !in stuck)
                && (r.Err? ==> r.error == NotUnlinked(ObjectPath(id)))
                && disk == if r.Ok? then old(disk) - {ObjectPath(id)} else old(disk)
      ensures T.DeleteChunk(old(View()), id).Err? ==>
                r == Err(Refused(T.DeleteChunk(old(View()), id).error)) && unchanged(this)
    {
      if id !in chunks {
        return Err(Refused(ChunkNotFound(id)));
      }
      var entry := DecodeEntry(chunks[id]);
      if entry.refcount > 0 {
        return Err(Refused(StillReferenced(id, entry.refcount)));
      }
      chunks := chunks - {id};
      assert Entries(chunks) == old(View()).chunks - {id};
      var path := ObjectPath(id);
      if path in disk && path in stuck {
        return Err(NotUnlinked(path));
      }
      disk := disk - {path};
      r := Ok(());
    }

    /** `gc`: both passes and the index changes as one transaction, then one
        unlink per reclaimed chunk, the first that fails ending it with the
        transaction committed. `unlinked` are the chunks it got to. */
    method Gc(now: i64, grace: nat, stuck: set<Path>) returns (r: Result<GcOutcome, IoFailure>, ghost unlinked: seq<ChunkId>)
      requires Valid()
      modifies this`chunks, this`gcMarks, this`disk
      ensures Valid() && View() == GcTables(old(View()), now, grace)
      ensures Unlinked(old(disk), disk, unlinked) && forall id | id in unlinked :: Reclaimable(old(View()), now, grace, id)
      ensures r.Ok? ==>
                && Lists(unlinked, Reclaimed(old(View()), now, grace)) && r.value.reclaimed == unlinked
                && G.SumLen(old(View()).chunks) == G.SumLen(View().chunks) + r.value.bytesReclaimed
                && r.value.pending == |View().gcMarks|
      ensures r.Err? ==>
                exists id :: Reclaimable(old(View()), now, grace, id)
                             && ObjectPath(id) in stuck && r.error == IoError(ObjectPath(id))
    {
      var dead, pending;
      ghost var t := View();
      chunks, gcMarks, dead, pending := GcTransaction(chunks, gcMarks, View(), now, grace);
      assert View() == GcTables(t, now, grace);
      var bytes;
      ghost var n;
      disk, bytes, n := UnlinkAll(disk, dead, stuck);
      unlinked := DeadIds(dead[..n]);
      AreReclaimable(t, now, grace, dead, n);
      if bytes.Err? {
        return Err(bytes.error), unlinked;
      }
      assert dead[..n] == dead;
      r := Ok(GcOutcome(DeadIds(dead), bytes.value, pending));
    }

    static method GcTransaction(chunks: Raw, gcMarks: Raw, t: Tables, now: i64, grace: nat)
      returns (chunks': Raw, gcMarks': Raw, dead: Dead, pending: nat)
      requires t.chunks == Entries(chunks) && t.gcMarks == Marks(gcMarks) && Wide(chunks, VALUE_SIZE) && Wide(gcMarks, 8)
      ensures Wide(chunks', VALUE_SIZE) && Wide(gcMarks', 8)
      ensures t.(chunks := Entries(chunks'), gcMarks := Marks(gcMarks')) == GcTables(t, now, grace)
      ensures Lists(DeadIds(dead), Reclaimed(t, now, grace))
      ensures G.SumLen(t.chunks) == G.SumLen(Entries(chunks')) + DeadBytes(dead)
      ensures pending == |Marks(gcMarks')|
    {
      var stale, newly, unmarked;
      ghost var waiting;
      dead, stale, pending, waiting := Reconcile(t, now, grace);
      newly, unmarked := FindUnmarked(t);
      chunks', gcMarks' := Sweep(t, chunks, gcMarks, now, grace, dead, stale, newly, waiting);
      PendingCount(t, now, grace, waiting, newly);
      BytesConserved(t, now, grace);
      pending := pending + unmarked;
    }

    /** The transaction's removals and insertions. */
    static method Sweep(ghost t: Tables, chunks: Raw, gcMarks: Raw, now: i64, ghost grace: nat,
                        dead: Dead, stale: set<ChunkId>, newly: set<ChunkId>, ghost waiting: set<ChunkId>)
      returns (chunks': Raw, gcMarks': Raw)
      requires t.chunks == Entries(chunks) && t.gcMarks == Marks(gcMarks) && Wide(chunks, VALUE_SIZE) && Wide(gcMarks, 8)
      requires Lists(DeadIds(dead), Reclaimed(t, now, grace)) && forall id :: id in newly <==> Unmarked(t, id)
      requires Sorted(t, now, grace, {}, Stale, stale) && Sorted(t, now, grace, {}, Waiting, waiting)
      ensures Wide(chunks', VALUE_SIZE) && Wide(gcMarks', 8)
      ensures Entries(chunks') == GcTables(t, now, grace).chunks
      ensures Marks(gcMarks') == GcTables(t, now, grace).gcMarks
    {
      ghost var gone := Reclaimed(t, now, grace);
      chunks' := RemoveAll(chunks, dead, gone);
      gcMarks' := RemoveAll(gcMarks, dead, gone);
      gcMarks' := gcMarks' - stale + map id | id in newly :: I64Le(now);
      MarksAfterGc(t, gcMarks, gcMarks', now, grace, stale, waiting, newly);
      ChunksAfterGc(t, chunks, now, grace);
    }

    static method RemoveAll(table: Raw, dead: Dead, ghost gone: set<ChunkId>) returns (rest: Raw)
      requires Lists(DeadIds(dead), gone)
      ensures rest == table - gone
    {
      rest := table;
      for i := 0 to |dead|
        invariant rest == table - set k | 0 <= k < i :: dead[k].0
      {
        rest := rest - {dead[i].0};
      }
      assert gone == set k | 0 <= k < |dead| :: dead[k].0 by {
        assert forall id :: id in DeadIds(dead) <==> exists k :: 0 <= k < |dead| && dead[k].0 == id;
      }
    }

    /** Unlinks the files of reclaimed chunks, the first `n` of them, and sums
        their lengths. */
    static method UnlinkAll(disk: Disk, dead: Dead, stuck: set<Path>)
      returns (left: Disk, r: Result<nat, IoFailure>, ghost n: nat)
      ensures n <= |dead| && Unlinked(disk, left, DeadIds(dead[..n]))
      ensures r.Ok? ==> n == |dead| && r.value == DeadBytes(dead)
      ensures r.Err? ==> n < |dead| && ObjectPath(dead[n].0) in stuck && r.error == IoError(ObjectPath(dead[n].0))
    {
      var bytesReclaimed: nat := 0;
      left := disk;
      for i := 0 to |dead|
        invariant Unlinked(disk, left, DeadIds(dead[..i])) && bytesReclaimed == DeadBytes(dead[..i])
      {
        var path := ObjectPath(dead[i].0);
        if path in left && path in stuck {
          return left, Err(IoError(path)), i;
        }
        assert dead[..i + 1] == dead[..i] + [dead[i]];
        DeadSnoc(dead[..i], dead[i].0, dead[i].1);
        UnlinkedSnoc(disk, left, DeadIds(dead[..i]), dead[i].0);
        left := left - {path};
        bytesReclaimed := bytesReclaimed + dead[i].1;
      }
      assert dead[..|dead|] == dead;
      r, n := Ok(bytesReclaimed), |dead|;
    }

    /** `prune` with the store to itself: list, plan, and one
        `delete_snapshot` per drop. */
    method Prune(now: i64, grid: R.Grid) returns (r: PruneOutcome)
      requires Valid()
      modifies this`chunks, this`snapshots, this`snapshotRefs
      ensures Valid() && View() == Pruned(old(View()), r.dropped)
      ensures R.Plan(r.kept, r.dropped) == R.PlanOf(now, grid, Items(Ascending(old(snapshots).Keys)))
    {
      var listed := Ascending(snapshots.Keys);
      var plan := R.ComputePlan(now, Items(listed), grid);
      for i := 0 to |plan.drop|
        invariant Valid() && View() == Pruned(old(View()), plan.drop[..i])
      {
        assert plan.drop[..i + 1][..i] == plan.drop[..i];
        var _ := DeleteSnapshot(plan.drop[i]);
      }
      assert plan.drop[..|plan.drop|] == plan.drop;
      r := PruneOutcome(plan.keep, plan.drop);
    }

    /** `status`. */
    method GetStatus() returns (r: Status)
      ensures r.snapshotsTotal == |View().snapshots| && r.chunksUnique == |View().chunks|
      ensures r.storeBytes == G.SumLen(View().chunks)
      ensures r.zeroRefChunks == |ZeroRefs(View().chunks)|
    {
      var total, bytes, zero := CountChunks(Entries(chunks));
      r := Status(|snapshots|, total, bytes, zero);
    }
  }

  function ZeroRefs(chunks: Chunks): set<ChunkId> {
    set id | id in chunks && chunks[id].refcount == 0
  }

  lemma SumStep(chunks: Chunks, counted: set<ChunkId>, id: ChunkId)
    requires counted <= chunks.Keys && id in chunks && id !in counted
    ensures G.SumOver(chunks, counted + {id}) == G.SumOver(chunks, counted) + chunks[id].chunkLen
  {
    G.SumRemove(chunks, counted + {id}, id);
    assert counted + {id} - {id} == counted;
  }

  ghost predicate Counted(chunks: Chunks, todo: set<ChunkId>, counted: set<ChunkId>, found: set<ChunkId>) {
    && todo <= chunks.Keys
    && (forall id :: id in counted <==> id in chunks && id !in todo)
    && (forall id :: id in found <==> id in counted && chunks[id].refcount == 0)
  }

  lemma CountStep(chunks: Chunks, todo: set<ChunkId>, counted: set<ChunkId>, found: set<ChunkId>, id: ChunkId)
    requires Counted(chunks, todo, counted, found) && id in todo
    ensures Counted(chunks, todo - {id}, counted + {id}, if chunks[id].refcount == 0 then found + {id} else found)
  {}

  method CountChunks(chunks: Chunks) returns (total: nat, bytes: nat, zero: nat)
    ensures total == |chunks| && bytes == G.SumLen(chunks) && zero == |ZeroRefs(chunks)|
  {
    total, bytes, zero := 0, 0, 0;
    var todo := chunks.Keys;
    ghost var counted: set<ChunkId>, found: set<ChunkId> := {}, {};
    while todo != {}
      invariant Counted(chunks, todo, counted, found) && total == |counted| && zero == |found|
      invariant bytes == G.SumOver(chunks, counted)
      decreases |todo|
    {
      var id :| id in todo;
      SumStep(chunks, counted, id);
      CountStep(chunks, todo, counted, found, id);
      total, bytes := total + 1, bytes + chunks[id].chunkLen;
      if chunks[id].refcount == 0 {
        zero, found := zero + 1, found + {id};
      }
      todo, counted := todo - {id}, counted + {id};
    }
    assert counted == chunks.Keys;
    assert found == ZeroRefs(chunks);
  }

  // ---- prunes ------------------------------------------------------------------

  /** Deletes `u`, or leaves the tables alone if it is already gone. */
  function Dropped(t: Tables, u: Ulid): Tables {
    match T.DeleteSnapshot(t, u)
    case Ok(t') => t'
    case Err(_) => t
  }

  function Pruned(t: Tables, drops: seq<Ulid>): Tables {
    if drops == [] then t else Dropped(Pruned(t, drops[..|drops| - 1]), drops[|drops| - 1])
  }

  /** A prune removes the dropped snapshots and no other, keeps every blob of
      the rest, no chunk, and every count exact. */
  lemma {:induction false} PruneRemovesTheDrops(t: Tables, drops: seq<Ulid>)
    ensures var t' := Pruned(t, drops);
            && (forall u :: u in t'.snapshots <==> u in t.snapshots && u !in drops)
            && (forall u | u in t'.snapshots :: t'.snapshots[u] == t.snapshots[u])
            && t'.chunks.Keys == t.chunks.Keys && t'.gcMarks == t.gcMarks
            && (Exact(t) ==> Exact(t'))
  {
    if drops != [] {
      var k := |drops| - 1;
      var before := Pruned(t, drops[..k]);
      PruneRemovesTheDrops(t, drops[..k]);
      assert drops == drops[..k] + [drops[k]];
      UnbumpCounts(before.chunks, RefsOf(before, drops[k]));
      if Exact(before) && drops[k] in before.snapshots {
        DeleteSnapshotExact(before, drops[k]);
      }
    }
  }

  // ---- the operations are the machine's steps ----------------------------------------

  /** Undisturbed, the machine's four sub-steps of a chunk write do what
      `PutChunk` does. */
  lemma PutChunkIsItsSteps(h: Hash, s: State, id: ChunkId, data: Bytes, unique: string)
    requires Enabled(h, s, PutBegin(id, data, unique))
    ensures var file, tmp := ObjectFile(h, data), TmpPath(id, unique);
            var begun := DoPutBegin(s, id, data, unique);
            Enabled(h, begun, PutWrite(|file|))
            && var written := DoPutWrite(h, begun, |file|);
               Enabled(h, written, PutRename) && Enabled(h, DoPutRename(written), PutCommit)
               && var done := DoPutCommit(DoPutRename(written));
                  && done.t == PutChunkTables(s.t, id, |data|)
                  && done.disk == (s.disk - {tmp})[ObjectPath(id) := file]
                  && done.writer.Idle? && done.past.blobs == s.past.blobs[id := data]
  {
    var file := ObjectFile(h, data);
    assert file[..|file|] == file;
    ObjectPathsDistinct(id, id);
  }

  function PruneSteps(s: State, p: nat, k: nat): (s': State)
    requires p in s.pruners && s.pruners[p].next == 0 && k <= |DropsOf(s.pruners[p])|
    ensures s'.pruners == s.pruners[p := s.pruners[p].(next := k)] && s'.writer == s.writer
  {
    if k == 0 then s else DoPruneNext(PruneSteps(s, p, k - 1), p)
  }

  /** Undisturbed, a prune's steps do what `Prune` does. */
  lemma {:induction false} PruneIsItsSteps(s: State, p: nat, k: nat)
    requires p in s.pruners && s.pruners[p].next == 0 && k <= |DropsOf(s.pruners[p])|
    ensures PruneSteps(s, p, k).t == Pruned(s.t, DropsOf(s.pruners[p])[..k])
  {
    if k > 0 {
      PruneIsItsSteps(s, p, k - 1);
      var drops := DropsOf(s.pruners[p]);
      assert drops[..k][..k - 1] == drops[..k - 1];
      assert DropsOf(s.pruners[p].(next := k - 1)) == drops;
    }
  }

  function UnlinkSteps(s: State, ids: seq<ChunkId>): State {
    if ids == [] then s else DoUnlink(UnlinkSteps(s, ids[..|ids| - 1]), ids[|ids| - 1])
  }

  /** Undisturbed, `gc`'s transaction and its unlinks leave the tables and
      files that `Gc` leaves, and nothing waiting. */
  lemma {:induction false} UnlinkStepsUnlink(s: State, ids: seq<ChunkId>)
    ensures var s' := UnlinkSteps(s, ids);
            && s'.t == s.t && Unlinked(s.disk, s'.disk, ids)
            && forall id :: id in s'.unlinking <==> id in s.unlinking && id !in ids
  {
    if ids != [] {
      var k := |ids| - 1;
      UnlinkStepsUnlink(s, ids[..k]);
      UnlinkedSnoc(s.disk, UnlinkSteps(s, ids[..k]).disk, ids[..k], ids[k]);
      assert ids == ids[..k] + [ids[k]];
    }
  }

  lemma GcIsItsSteps(s: State, grace: nat, ids: seq<ChunkId>)
    requires s.unlinking == {} && Lists(ids, Reclaimed(s.t, s.now, grace))
    ensures var s' := UnlinkSteps(DoGc(s, grace), ids);
            s'.t == GcTables(s.t, s.now, grace) && Unlinked(s.disk, s'.disk, ids) && s'.unlinking == {}
  {
    UnlinkStepsUnlink(DoGc(s, grace), ids);
  }
}
