/** Each index transaction keeps every refcount equal to the number of
    occurrences of its chunk in listed snapshots. */
module RefCounts {
  import opened Bytes
  import opened Wrappers
  import opened ChunkIds
  import opened Index
  import opened Tables

  lemma InsertOccurrences(rows: Rows, u: Ulid, refs: seq<ChunkId>, id: ChunkId)
    requires u !in rows
    ensures |Occurrences(rows[u := refs], id)| == |Occurrences(rows, id)| + multiset(refs)[id]
  {
    PositionsCount(refs, u, id);
    assert Occurrences(rows[u := refs], id) == Occurrences(rows, id) + Positions(refs, u, id);
    assert Occurrences(rows, id) !! Positions(refs, u, id);
  }

  lemma RemoveOccurrences(rows: Rows, u: Ulid, id: ChunkId)
    requires u in rows
    ensures |Occurrences(rows - {u}, id)| == |Occurrences(rows, id)| - multiset(rows[u])[id]
  {
    InsertOccurrences(rows - {u}, u, rows[u], id);
    assert (rows - {u})[u := rows[u]] == rows;
  }

  lemma {:induction false} JoinLength(refs: seq<ChunkId>)
    ensures |JoinRefs(refs)| == ID_LEN * |refs|
  {
    if refs != [] {
      JoinLength(refs[1..]);
    }
  }

  /** No chunk's reference total passes the largest `u64`. */
  predicate CountsFit(rows: Rows, refs: seq<ChunkId>) {
    forall r | r in refs :: |Occurrences(rows, r)| + multiset(refs)[r] <= U64_MAX
  }

  lemma BumpKeepsCountsIff(chunks: Chunks, rows: Rows, u: Ulid, refs: seq<ChunkId>)
    requires CountsMatch(chunks, rows) && u !in rows && Bump(chunks, refs).Ok?
    ensures CountsMatch(Bump(chunks, refs).value, rows[u := refs]) <==> CountsFit(rows, refs)
  {
    var rows', c := rows[u := refs], Bump(chunks, refs).value;
    BumpCounts(chunks, refs);
    forall id
      ensures |Occurrences(rows', id)| == |Occurrences(rows, id)| + multiset(refs)[id]
    {
      InsertOccurrences(rows, u, refs, id);
    }
    forall id | Referenced(rows', id)
      ensures id in c
    {
      var v :| v in rows' && id in rows'[v];
      assert v != u ==> Referenced(rows, id);
    }
    forall id | id in c
      ensures c[id].refcount == |Occurrences(rows', id)| <==> |Occurrences(rows, id)| + multiset(refs)[id] <= U64_MAX
      ensures id !in refs ==> |Occurrences(rows, id)| + multiset(refs)[id] <= U64_MAX
    {
      if id !in refs {
        assert multiset(refs)[id] == 0;
      }
    }
  }

  lemma RowsInsert(t: Tables, u: Ulid, refs: seq<ChunkId>)
    ensures RowsOf(t.(snapshotRefs := t.snapshotRefs[u := JoinRefs(refs)])) == RowsOf(t)[u := refs]
  {
    SplitJoin(refs);
  }

  lemma RowsRemove(t: Tables, u: Ulid)
    ensures RowsOf(t.(snapshotRefs := t.snapshotRefs - {u})) == RowsOf(t) - {u}
  {}

  lemma SameRows(t: Tables, t': Tables)
    requires t'.snapshotRefs == t.snapshotRefs
    ensures RowsOf(t') == RowsOf(t)
  {}

  /** A stored snapshot leaves every count exact if and only if no counter had
      to saturate. */
  lemma PutSnapshotExactIff(t: Tables, u: Ulid, blob: Bytes, refs: seq<ChunkId>)
    requires Exact(t) && PutSnapshot(t, u, blob, refs).Ok?
    ensures Exact(PutSnapshot(t, u, blob, refs).value) <==> CountsFit(RowsOf(t), refs)
  {
    RowsInsert(t, u, refs);
    BumpKeepsCountsIff(t.chunks, RowsOf(t), u, refs);
    JoinLength(refs);
    PutSnapshotRows(t, u, blob, refs);
  }

  lemma PutSnapshotRows(t: Tables, u: Ulid, blob: Bytes, refs: seq<ChunkId>)
    requires Exact(t) && PutSnapshot(t, u, blob, refs).Ok?
    ensures var t' := PutSnapshot(t, u, blob, refs).value;
            && Bump(t.chunks, refs).Ok? && t'.chunks == Bump(t.chunks, refs).value
            && t'.snapshots.Keys == t'.snapshotRefs.Keys
            && RowsOf(t') == RowsOf(t)[u := refs]
    ensures WholeRows(PutSnapshot(t, u, blob, refs).value)
  {
    var t' := PutSnapshot(t, u, blob, refs).value;
    RowsInsert(t, u, refs);
    SameRows(t.(snapshotRefs := t.snapshotRefs[u := JoinRefs(refs)]), t');
    JoinLength(refs);
  }

  /** A snapshot is stored exactly when its ULID is free and every chunk it
      names is indexed; a refusal names the reason. */
  lemma PutSnapshotOkIff(t: Tables, u: Ulid, blob: Bytes, refs: seq<ChunkId>)
    ensures var r := PutSnapshot(t, u, blob, refs);
            && (r.Ok? <==> u !in t.snapshots && forall c | c in refs :: c in t.chunks)
            && (u in t.snapshots ==> r == Err(SnapshotExists(u)))
            && (r.Err? && u !in t.snapshots ==>
                  r.error.UnknownChunkRef? && r.error.chunk in refs && r.error.chunk !in t.chunks)
  {
    BumpCounts(t.chunks, refs);
  }

  lemma DeleteSnapshotExact(t: Tables, u: Ulid)
    requires Exact(t) && u in t.snapshots
    ensures Exact(DeleteSnapshot(t, u).value)
  {
    var t' := DeleteSnapshot(t, u).value;
    RowsRemove(t, u);
    SameRows(t.(snapshotRefs := t.snapshotRefs - {u}), t');
    UnbumpKeepsCounts(t.chunks, RowsOf(t), u);
  }

  lemma UnbumpKeepsCounts(chunks: Chunks, rows: Rows, u: Ulid)
    requires CountsMatch(chunks, rows) && u in rows
    ensures CountsMatch(Unbump(chunks, rows[u]), rows - {u})
  {
    var rows', c := rows - {u}, Unbump(chunks, rows[u]);
    UnbumpCounts(chunks, rows[u]);
    forall id | Referenced(rows', id)
      ensures id in c
    {
      var v :| v in rows' && id in rows'[v];
      assert Referenced(rows, id);
    }
    forall id | id in c
      ensures c[id].refcount == |Occurrences(rows', id)|
    {
      RemoveOccurrences(rows, u, id);
    }
  }

  lemma UnbumpUndoesBump(chunks: Chunks, rows: Rows, refs: seq<ChunkId>)
    requires CountsMatch(chunks, rows) && Bump(chunks, refs).Ok? && CountsFit(rows, refs)
    ensures Unbump(Bump(chunks, refs).value, refs) == chunks
  {
    BumpCounts(chunks, refs);
    UnbumpCounts(Bump(chunks, refs).value, refs);
    var c := Unbump(Bump(chunks, refs).value, refs);
    forall id | id in chunks
      ensures c[id] == chunks[id]
    {
      if id !in refs {
        assert multiset(refs)[id] == 0;
      }
    }
  }

  /** Deleting a snapshot undoes storing it: the tables are again what they
      were, provided no counter saturated. */
  lemma DeleteUndoesPut(t: Tables, u: Ulid, blob: Bytes, refs: seq<ChunkId>)
    requires Exact(t) && PutSnapshot(t, u, blob, refs).Ok? && CountsFit(RowsOf(t), refs)
    ensures DeleteSnapshot(PutSnapshot(t, u, blob, refs).value, u) == Ok(t)
  {
    var t' := PutSnapshot(t, u, blob, refs).value;
    SplitJoin(refs);
    UnbumpUndoesBump(t.chunks, RowsOf(t), refs);
    assert t'.snapshots - {u} == t.snapshots && t'.snapshotRefs - {u} == t.snapshotRefs;
  }

  /** `put_chunk`'s index change. */
  function PutChunkTables(t: Tables, id: ChunkId, len: u64): Tables
    requires id !in t.chunks
  {
    t.(chunks := t.chunks[id := IndexEntry(len, 0)])
  }

  lemma PutChunkExact(t: Tables, id: ChunkId, len: u64)
    requires Exact(t) && id !in t.chunks
    ensures Exact(PutChunkTables(t, id, len))
  {
    SameRows(t, PutChunkTables(t, id, len));
    OccursWhereReferenced(RowsOf(t), id);
  }

  /** A chunk has an occurrence exactly when a listed snapshot names it. */
  lemma OccursWhereReferenced(rows: Rows, id: ChunkId)
    ensures Referenced(rows, id) <==> |Occurrences(rows, id)| > 0
  {
    if Referenced(rows, id) {
      var u :| u in rows && id in rows[u];
      var i :| 0 <= i < |rows[u]| && rows[u][i] == id;
      assert (u, i) in Occurrences(rows, id);
    } else {
      assert Occurrences(rows, id) == {};
    }
  }

  /** Removing unreferenced chunks, as `gc` and `delete_chunk` do. */
  lemma DropUnreferencedExact(t: Tables, gone: set<ChunkId>, t': Tables)
    requires Exact(t) && forall id | id in gone :: ZeroRef(t, id)
    requires t'.chunks == t.chunks - gone && t'.snapshots == t.snapshots && t'.snapshotRefs == t.snapshotRefs
    ensures Exact(t')
  {
    SameRows(t, t');
    forall id | Referenced(RowsOf(t), id)
      ensures id in t'.chunks
    {
      OccursWhereReferenced(RowsOf(t), id);
    }
  }

  lemma EmptyExact()
    ensures Exact(EMPTY)
  {}
}
