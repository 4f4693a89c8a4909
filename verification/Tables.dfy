/** The chunk store's index tables and what each write transaction does to
    them. A transaction commits whole or leaves the tables as they were. */
module Tables {
  import opened Bytes
  import opened Wrappers
  import opened ChunkIds
  import opened Index

  /** A snapshot's 16-byte ULID, as the number its bytes spell; the key order
      of the snapshot table is numeric order. */
  type Ulid = u: nat | u < 0x1_0000_0000_0000_0000_0000_0000_0000_0000

  /** A ULID's leading 48 bits: milliseconds since the epoch. */
  function UlidTime(u: Ulid): (t: i64)
    ensures 0 <= t < 0x1_0000_0000_0000
  {
    u / 0x1_0000_0000_0000_0000_0000
  }

  type Chunks = map<ChunkId, IndexEntry>

  datatype Tables = Tables(
    chunks: Chunks,
    snapshots: map<Ulid, Bytes>,
    snapshotRefs: map<Ulid, Bytes>,
    gcMarks: map<ChunkId, i64>)

  const EMPTY: Tables := Tables(map[], map[], map[], map[])

  datatype StoreError =
    | ChunkNotFound(chunk: ChunkId)
    | SnapshotNotFound(snapshot: Ulid)
    | SnapshotExists(snapshot: Ulid)
    | UnknownChunkRef(snapshot: Ulid, chunk: ChunkId)
    | StillReferenced(chunk: ChunkId, refcount: nat)
    | HashMismatch(chunk: ChunkId, actual: ChunkId)
    | LengthMismatch(chunk: ChunkId, expected: nat, found: nat)
    | MissingBlob(chunk: ChunkId)

  // ---- references -----------------------------------------------------

  /** The stored form of a reference list: the identities end to end. */
  function JoinRefs(refs: seq<ChunkId>): Bytes {
    if refs == [] then [] else refs[0] + JoinRefs(refs[1..])
  }

  /** `chunks_exact(32)`: whole blocks only, a short tail is ignored. */
  function SplitRefs(row: Bytes): seq<ChunkId> {
    if |row| < ID_LEN then [] else [row[..ID_LEN]] + SplitRefs(row[ID_LEN..])
  }

  lemma {:induction false} SplitJoin(refs: seq<ChunkId>)
    ensures SplitRefs(JoinRefs(refs)) == refs
  {
    if refs != [] {
      SplitJoin(refs[1..]);
      var row := JoinRefs(refs);
      assert row[..ID_LEN] == refs[0] && row[ID_LEN..] == JoinRefs(refs[1..]);
    }
  }

  function SatInc(n: u64): u64 { if n == U64_MAX then n else n + 1 }

  function SatDec(n: u64): u64 { if n == 0 then n else n - 1 }

  function AddRef(e: IndexEntry): IndexEntry { e.(refcount := SatInc(e.refcount)) }

  function DropRef(e: IndexEntry): IndexEntry { e.(refcount := SatDec(e.refcount)) }

  /** One reference taken per entry of `refs`, in order; fails on the first
      identity that is not indexed. */
  function Bump(chunks: Chunks, refs: seq<ChunkId>): Result<Chunks, ChunkId> {
    if refs == [] then Ok(chunks)
    else if refs[0] !in chunks then Err(refs[0])
    else Bump(chunks[refs[0] := AddRef(chunks[refs[0]])], refs[1..])
  }

  /** One reference given back per entry of `refs`; an identity that is not
      indexed is passed over. */
  function Unbump(chunks: Chunks, refs: seq<ChunkId>): Chunks {
    if refs == [] then chunks
    else if refs[0] !in chunks then Unbump(chunks, refs[1..])
    else Unbump(chunks[refs[0] := DropRef(chunks[refs[0]])], refs[1..])
  }

  function Min(a: int, b: int): int { if a < b then a else b }
  function Max(a: int, b: int): int { if a > b then a else b }

  /** `Bump` in closed form: it succeeds exactly when every identity is
      indexed, and then adds each identity's number of occurrences, up to the
      saturation point. */
  lemma {:induction false} BumpCounts(chunks: Chunks, refs: seq<ChunkId>)
    ensures Bump(chunks, refs).Ok? <==> forall r | r in refs :: r in chunks
    ensures Bump(chunks, refs).Err? ==> Bump(chunks, refs).error in refs && Bump(chunks, refs).error !in chunks
    ensures Bump(chunks, refs).Ok? ==>
              var c := Bump(chunks, refs).value;
              && c.Keys == chunks.Keys
              && forall id | id in c :: c[id].chunkLen == chunks[id].chunkLen
                                     && c[id].refcount == Min(U64_MAX, chunks[id].refcount + multiset(refs)[id])
  {
    if refs != [] {
      assert refs == [refs[0]] + refs[1..];
      if refs[0] in chunks {
        BumpCounts(chunks[refs[0] := AddRef(chunks[refs[0]])], refs[1..]);
      }
    }
  }

  /** `Unbump` in closed form. */
  lemma {:induction false} UnbumpCounts(chunks: Chunks, refs: seq<ChunkId>)
    ensures var c := Unbump(chunks, refs);
            && c.Keys == chunks.Keys
            && forall id | id in c :: c[id].chunkLen == chunks[id].chunkLen
                                   && c[id].refcount == Max(0, chunks[id].refcount - multiset(refs)[id])
  {
    if refs != [] {
      assert refs == [refs[0]] + refs[1..];
      if refs[0] in chunks {
        UnbumpCounts(chunks[refs[0] := DropRef(chunks[refs[0]])], refs[1..]);
      } else {
        UnbumpCounts(chunks, refs[1..]);
      }
    }
  }

  // ---- transactions -----------------------------------------------------

  /** `put_snapshot_as`. */
  function PutSnapshot(t: Tables, u: Ulid, blob: Bytes, refs: seq<ChunkId>): Result<Tables, StoreError> {
    if u in t.snapshots then Err(SnapshotExists(u))
    else match Bump(t.chunks, refs)
      case Err(chunk) => Err(UnknownChunkRef(u, chunk))
      case Ok(chunks) => Ok(t.(chunks := chunks,
                               snapshotRefs := t.snapshotRefs[u := JoinRefs(refs)],
                               snapshots := t.snapshots[u := blob]))
  }

  /** `delete_snapshot`. A missing reference row reads as no references. */
  function DeleteSnapshot(t: Tables, u: Ulid): Result<Tables, StoreError> {
    if u !in t.snapshots then Err(SnapshotNotFound(u))
    else Ok(t.(snapshots := t.snapshots - {u},
               snapshotRefs := t.snapshotRefs - {u},
               chunks := Unbump(t.chunks, RefsOf(t, u))))
  }

  function RefsOf(t: Tables, u: Ulid): seq<ChunkId> {
    if u in t.snapshotRefs then SplitRefs(t.snapshotRefs[u]) else []
  }

  /** `grace.as_millis()`, clamped to `i64`. */
  function GraceMs(grace: nat): (g: i64)
    ensures 0 <= g
  {
    if grace > I64_MAX then I64_MAX else grace
  }

  predicate ZeroRef(t: Tables, id: ChunkId) {
    id in t.chunks && t.chunks[id].refcount == 0
  }

  /** Marked, still unreferenced, and past its grace. */
  predicate Reclaimable(t: Tables, now: i64, grace: nat, id: ChunkId) {
    ZeroRef(t, id) && id in t.gcMarks && SatSub(now, t.gcMarks[id]) >= GraceMs(grace)
  }

  function Reclaimed(t: Tables, now: i64, grace: nat): set<ChunkId> {
    set id | id in t.gcMarks && Reclaimable(t, now, grace, id)
  }

  /** `gc`'s one index transaction. */
  function GcTables(t: Tables, now: i64, grace: nat): Tables {
    var gone := Reclaimed(t, now, grace);
    t.(chunks := t.chunks - gone,
       gcMarks := map id | id in t.chunks && ZeroRef(t, id) && id !in gone
                    :: if id in t.gcMarks then t.gcMarks[id] else now)
  }

  /** `delete_chunk`'s index transaction, which leaves the mark table alone. */
  function DeleteChunk(t: Tables, id: ChunkId): Result<Tables, StoreError> {
    if id !in t.chunks then Err(ChunkNotFound(id))
    else if t.chunks[id].refcount > 0 then Err(StillReferenced(id, t.chunks[id].refcount))
    else Ok(t.(chunks := t.chunks - {id}))
  }

  // ---- exact reference counts ---------------------------------------------

  /** The reference lists as `delete_snapshot` re-splits them. */
  type Rows = map<Ulid, seq<ChunkId>>

  function RowsOf(t: Tables): Rows {
    map u | u in t.snapshotRefs :: SplitRefs(t.snapshotRefs[u])
  }

  /** Every place `id` occurs in the reference lists. */
  function Occurrences(rows: Rows, id: ChunkId): set<(Ulid, nat)> {
    set u, i | u in rows && 0 <= i < |rows[u]| && rows[u][i] == id :: (u, i)
  }

  ghost predicate Referenced(rows: Rows, id: ChunkId) {
    exists u :: u in rows && id in rows[u]
  }

  ghost predicate CountsMatch(chunks: Chunks, rows: Rows) {
    && (forall id | Referenced(rows, id) :: id in chunks)
    && (forall id | id in chunks :: chunks[id].refcount == |Occurrences(rows, id)|)
  }

  ghost predicate WholeRows(t: Tables) {
    forall u | u in t.snapshotRefs :: |t.snapshotRefs[u]| % ID_LEN == 0
  }

  /** Each listed snapshot has a reference row of whole identities end to end,
      every referenced chunk is indexed, and each refcount is the number of
      places its chunk occurs. */
  ghost predicate Exact(t: Tables) {
    && t.snapshots.Keys == t.snapshotRefs.Keys
    && WholeRows(t)
    && CountsMatch(t.chunks, RowsOf(t))
  }

  function Positions(refs: seq<ChunkId>, u: Ulid, id: ChunkId): set<(Ulid, nat)> {
    set i | 0 <= i < |refs| && refs[i] == id :: (u, i)
  }

  lemma {:induction false} PositionsCount(refs: seq<ChunkId>, u: Ulid, id: ChunkId)
    ensures |Positions(refs, u, id)| == multiset(refs)[id]
  {
    if refs == [] {
      assert Positions(refs, u, id) == {};
    } else {
      var k := |refs| - 1;
      var init := refs[..k];
      PositionsCount(init, u, id);
      assert refs == init + [refs[k]];
      assert Positions(refs, u, id) == Positions(init, u, id) + if refs[k] == id then {(u, k)} else {};
      assert (u, k) !in Positions(init, u, id);
    }
  }
}
