/** What `gc` may and must reclaim, over one run and over whole histories. */
module GarbageCollection {
  import opened Bytes
  import opened Wrappers
  import opened ChunkIds
  import opened Tables
  import opened RefCounts
  import opened Machine
  import opened StoreSafety

  // ---- the grace period over whole runs -----------------------------------

  ghost predicate NoDelete(run: Run) {
    forall i | 0 <= i < |run| :: !run[i].Delete?
  }

  /** Unreferenced at every `gc` from the `j`-th on. */
  ghost predicate ZeroSince(s: State, id: ChunkId, j: nat) {
    j <= |s.past.gcRuns| && forall k | j <= k < |s.past.gcRuns| :: id in s.past.gcRuns[k].zero
  }

  /** `m` is the time of a `gc` at which, and at every one since, `id` was
      unreferenced. */
  ghost predicate MarkedBy(s: State, id: ChunkId, m: i64) {
    exists j :: 0 <= j < |s.past.gcRuns| && s.past.gcRuns[j].at == m && ZeroSince(s, id, j)
  }

  ghost predicate MarksOk(s: State) {
    && (forall id | id in s.past.storedAt :: s.past.storedAt[id] <= s.now)
    && (forall id | id in s.t.gcMarks ::
          && id in s.past.storedAt
          && s.past.storedAt[id] <= s.t.gcMarks[id] <= s.now
          && MarkedBy(s, id, s.t.gcMarks[id]))
  }

  lemma GcKeepsMarkedBy(s: State, grace: nat, id: ChunkId)
    requires id in s.t.gcMarks ==> MarkedBy(s, id, s.t.gcMarks[id])
    requires ZeroRef(s.t, id)
    ensures MarkedBy(DoGc(s, grace), id, if id in s.t.gcMarks then s.t.gcMarks[id] else s.now)
  {
    var s' := DoGc(s, grace);
    var n := |s.past.gcRuns|;
    assert id in s'.past.gcRuns[n].zero;
    if id in s.t.gcMarks {
      var j :| 0 <= j < n && s.past.gcRuns[j].at == s.t.gcMarks[id] && ZeroSince(s, id, j);
      assert ZeroSince(s', id, j) && s'.past.gcRuns[j] == s.past.gcRuns[j];
    } else {
      assert ZeroSince(s', id, n) && s'.past.gcRuns[n].at == s.now;
    }
  }

  lemma GcKeepsMarksOk(s: State, grace: nat)
    requires s.past.storedAt.Keys == s.t.chunks.Keys && MarksOk(s)
    ensures MarksOk(DoGc(s, grace))
  {
    var s' := DoGc(s, grace);
    forall id | id in s'.t.gcMarks
      ensures s'.t.gcMarks[id] == if id in s.t.gcMarks then s.t.gcMarks[id] else s.now
      ensures id in s'.past.storedAt && MarkedBy(s', id, s'.t.gcMarks[id])
    {
      GcKeepsMarkedBy(s, grace, id);
    }
  }

  lemma StepKeepsMarksOk(h: Hash, s: State, step: Step)
    requires Inv(h, s) && MarksOk(s) && Enabled(h, s, step) && !step.Delete?
    ensures MarksOk(Apply(h, s, step))
  {
    if step.Gc? {
      GcKeepsMarksOk(s, step.grace);
    } else {
      var s' := Apply(h, s, step);
      OnlyGcTouchesMarks(h, s, step);
      forall id | id in s'.t.gcMarks
        ensures MarkedBy(s', id, s'.t.gcMarks[id])
      {
        var j :| 0 <= j < |s.past.gcRuns| && s.past.gcRuns[j].at == s.t.gcMarks[id] && ZeroSince(s, id, j);
        assert ZeroSince(s', id, j);
      }
    }
  }

  lemma OnlyGcTouchesMarks(h: Hash, s: State, step: Step)
    requires Inv(h, s) && Enabled(h, s, step) && !step.Delete? && !step.Gc?
    ensures var s' := Apply(h, s, step);
            && s'.t.gcMarks == s.t.gcMarks && s'.past.gcRuns == s.past.gcRuns && s.now <= s'.now
            && (forall id | id in s.past.storedAt :: id in s'.past.storedAt && s'.past.storedAt[id] == s.past.storedAt[id])
            && (forall id | id in s'.past.storedAt && id !in s.past.storedAt :: s'.past.storedAt[id] == s.now)
  {
    if step.PutCommit? {
      CommitTouchesNoMarks(h, s);
    } else if step.PutSnap? || step.PruneNext? {
      SnapshotsTouchNoMarks(h, s, step);
    }
  }

  lemma CommitTouchesNoMarks(h: Hash, s: State)
    requires Enabled(h, s, PutCommit)
    ensures var s' := DoPutCommit(s);
            && s'.t.gcMarks == s.t.gcMarks && s'.past.gcRuns == s.past.gcRuns && s'.now == s.now
            && s'.past.storedAt == s.past.storedAt[s.writer.id := s.now]
  {}

  lemma SnapshotsTouchNoMarks(h: Hash, s: State, step: Step)
    requires Enabled(h, s, step) && (step.PutSnap? || step.PruneNext?)
    ensures var s' := Apply(h, s, step);
            && s'.t.gcMarks == s.t.gcMarks && s'.past.gcRuns == s.past.gcRuns
            && s'.past.storedAt == s.past.storedAt && s'.now == s.now
  {}

  lemma {:induction false} RunKeepsMarksOk(h: Hash, run: Run)
    requires Legal(h, run) && NoDelete(run)
    ensures MarksOk(After(h, run))
  {
    if run != [] {
      var k := |run| - 1;
      RunKeepsMarksOk(h, run[..k]);
      RunKeepsInv(h, run[..k]);
      StepKeepsMarksOk(h, After(h, run[..k]), run[k]);
    }
  }

  /** After any run without `delete_chunk`, a `gc` reclaims a chunk only if
      its mark is at least `grace` old, every `gc` since the mark found it
      unreferenced, and it was stored at least `grace` ago; a chunk stored
      more recently survives. */
  lemma GcHonoursGrace(h: Hash, run: Run, grace: nat, id: ChunkId)
    requires Legal(h, run) && NoDelete(run) && Enabled(h, After(h, run), Gc(grace))
    requires id in After(h, run).t.chunks
    ensures var s := After(h, run);
            id in s.past.storedAt
    ensures var s := After(h, run);
            id !in DoGc(s, grace).t.chunks ==>
              && id in s.t.gcMarks && s.t.gcMarks[id] + GraceMs(grace) <= s.now
              && MarkedBy(s, id, s.t.gcMarks[id])
              && s.past.storedAt[id] + GraceMs(grace) <= s.now
    ensures var s := After(h, run);
            s.now < s.past.storedAt[id] + GraceMs(grace) ==> id in DoGc(s, grace).t.chunks
  {
    RunKeepsInv(h, run);
    RunKeepsMarksOk(h, run);
  }

  // ---- "continuously unreferenced" -------------------------------------------

  ghost predicate MarkedAt(h: Hash, run: Run, n: nat, id: ChunkId) {
    n <= |run| && Legal(h, run[..n]) && id in After(h, run[..n]).t.gcMarks
  }

  /** Step `j` is the `gc` that set the mark `id` has carried ever since. */
  ghost predicate MarkSetBy(h: Hash, run: Run, id: ChunkId, j: nat) {
    && j < |run| && run[j].Gc? && Legal(h, run[..j])
    && id !in After(h, run[..j]).t.gcMarks
    && forall n | j < n <= |run| :: MarkedAt(h, run, n, id)
  }

  lemma MarkedEarlier(h: Hash, run: Run, k: nat, n: nat, id: ChunkId)
    requires n <= k <= |run| && MarkedAt(h, run[..k], n, id)
    ensures MarkedAt(h, run, n, id)
  {
    assert run[..k][..n] == run[..n];
  }

  /** Only `gc` sets a mark. */
  lemma OnlyGcMarks(h: Hash, s: State, step: Step, id: ChunkId)
    requires Inv(h, s) && Enabled(h, s, step) && id !in s.t.gcMarks && !step.Gc?
    ensures id !in Apply(h, s, step).t.gcMarks
  {}

  lemma MarkSetEarlier(h: Hash, run: Run, id: ChunkId, j: nat)
    requires run != [] && MarkSetBy(h, run[..|run| - 1], id, j) && MarkedAt(h, run, |run|, id)
    ensures MarkSetBy(h, run, id, j)
  {
    var k := |run| - 1;
    assert run[..k][..j] == run[..j];
    forall n | j < n <= |run|
      ensures MarkedAt(h, run, n, id)
    {
      if n <= k {
        assert MarkedAt(h, run[..k], n, id);
        MarkedEarlier(h, run, k, n, id);
      }
    }
  }

  lemma MarkSetLast(h: Hash, run: Run, id: ChunkId)
    requires run != [] && Legal(h, run) && MarkedAt(h, run, |run|, id)
    requires id !in After(h, run[..|run| - 1]).t.gcMarks
    ensures MarkSetBy(h, run, id, |run| - 1)
  {
    var k := |run| - 1;
    assert run[..|run|] == run;
    RunKeepsInv(h, run[..k]);
    if !run[k].Gc? {
      OnlyGcMarks(h, After(h, run[..k]), run[k], id);
    }
  }

  /** Every mark was set by some `gc` of the run. */
  lemma {:induction false} MarkWasSet(h: Hash, run: Run, id: ChunkId) returns (j: nat)
    requires Legal(h, run) && id in After(h, run).t.gcMarks
    ensures MarkSetBy(h, run, id, j)
  {
    j := |run| - 1;
    assert run[..|run|] == run;
    assert MarkedAt(h, run, |run|, id);
    if id in After(h, run[..j]).t.gcMarks {
      j := MarkWasSet(h, run[..j], id);
      MarkSetEarlier(h, run, id, j);
    } else {
      MarkSetLast(h, run, id);
    }
  }

  /** Step `k` stores a snapshot that names `id`. */
  ghost predicate References(h: Hash, run: Run, k: nat, id: ChunkId) {
    && k < |run| && run[k].PutSnap? && Legal(h, run[..k])
    && PutSnapshot(After(h, run[..k]).t, run[k].u, run[k].blob, run[k].refs).Ok?
    && id in run[k].refs
  }

  ghost predicate ZeroRefAt(h: Hash, run: Run, n: nat, id: ChunkId) {
    n <= |run| && Legal(h, run[..n]) && ZeroRef(After(h, run[..n]).t, id)
  }

  lemma PutSnapCounts(s: State, u: Ulid, blob: Bytes, refs: seq<ChunkId>, id: ChunkId)
    requires ZeroRef(s.t, id) && PutSnapshot(s.t, u, blob, refs).Ok?
    ensures ZeroRef(DoPutSnap(s, u, blob, refs).t, id) <==> id !in refs
  {
    BumpCounts(s.t.chunks, refs);
    assert id in refs <==> multiset(refs)[id] > 0;
  }

  lemma PruneNextKeepsZero(s: State, p: nat, id: ChunkId)
    requires ZeroRef(s.t, id) && p in s.pruners && s.pruners[p].next < |DropsOf(s.pruners[p])|
    ensures ZeroRef(DoPruneNext(s, p).t, id)
  {
    var u := DropsOf(s.pruners[p])[s.pruners[p].next];
    UnbumpCounts(s.t.chunks, RefsOf(s.t, u));
  }

  /** A marked chunk gains a reference only from a snapshot that names it. */
  lemma StaysZero(h: Hash, s: State, step: Step, id: ChunkId)
    requires Inv(h, s) && Enabled(h, s, step) && ZeroRef(s.t, id)
    requires !step.Delete? && id in Apply(h, s, step).t.gcMarks
    requires step.PutSnap? && PutSnapshot(s.t, step.u, step.blob, step.refs).Ok? ==> id !in step.refs
    ensures ZeroRef(Apply(h, s, step).t, id)
  {
    if step.PutSnap? {
      if PutSnapshot(s.t, step.u, step.blob, step.refs).Ok? {
        PutSnapCounts(s, step.u, step.blob, step.refs, id);
      }
    } else if step.PruneNext? {
      PruneNextKeepsZero(s, step.p, id);
    }
  }

  lemma ZeroAtNext(h: Hash, run: Run, id: ChunkId, n: nat)
    requires Legal(h, run) && n < |run| && !run[n].Delete?
    requires ZeroRefAt(h, run, n, id) && MarkedAt(h, run, n + 1, id) && !References(h, run, n, id)
    ensures ZeroRefAt(h, run, n + 1, id)
  {
    LegalPrefix(h, run, n);
    RunKeepsInv(h, run[..n]);
    StaysZero(h, After(h, run[..n]), run[n], id);
  }

  lemma ZeroOnceMarked(h: Hash, run: Run, id: ChunkId, j: nat)
    requires Legal(h, run) && MarkSetBy(h, run, id, j)
    ensures ZeroRefAt(h, run, j + 1, id)
  {
    LegalPrefix(h, run, j);
    assert MarkedAt(h, run, j + 1, id);
  }

  lemma {:induction false} ZeroUpTo(h: Hash, run: Run, id: ChunkId, j: nat, n: nat)
    requires Legal(h, run) && NoDelete(run) && MarkSetBy(h, run, id, j) && j < n <= |run|
    requires forall k | j < k < n :: !References(h, run, k, id)
    ensures ZeroRefAt(h, run, n, id)
  {
    if n == j + 1 {
      ZeroOnceMarked(h, run, id, j);
    } else {
      ZeroUpTo(h, run, id, j, n - 1);
      assert MarkedAt(h, run, n, id) && !References(h, run, n - 1, id);
      ZeroAtNext(h, run, id, n - 1);
    }
  }

  /** The documentation's condition for reclaiming a chunk, that it has been
      unreferenced continuously since its mark, holds of a run without
      `delete_chunk` if and only if no snapshot naming the chunk was stored
      after the `gc` that set the mark. */
  lemma ContinuouslyUnreferencedIff(h: Hash, run: Run, grace: nat, id: ChunkId) returns (j: nat)
    requires Legal(h, run) && NoDelete(run) && id in Reclaimed(After(h, run).t, After(h, run).now, grace)
    ensures MarkSetBy(h, run, id, j)
    ensures (forall n | j < n <= |run| :: ZeroRefAt(h, run, n, id))
       <==> (forall k | j < k < |run| :: !References(h, run, k, id))
  {
    j := MarkWasSet(h, run, id);
    if forall k | j < k < |run| :: !References(h, run, k, id) {
      forall n | j < n <= |run|
        ensures ZeroRefAt(h, run, n, id)
      {
        ZeroUpTo(h, run, id, j, n);
      }
    }
    forall k | j < k < |run| && References(h, run, k, id)
      ensures exists n :: j < n <= |run| && !ZeroRefAt(h, run, n, id)
    {
      if ZeroRefAt(h, run, k, id) {
        LegalPrefix(h, run, k);
        PutSnapCounts(After(h, run[..k]), run[k].u, run[k].blob, run[k].refs, id);
        assert !ZeroRefAt(h, run, k + 1, id);
      }
    }
  }

  /** `delete_chunk` leaves the mark behind, so a chunk stored again under the
      same identity is reclaimed at once exactly when the old mark is past
      its grace: this is why the theorem above excludes `delete_chunk`. */
  lemma StaleMarkAfterDelete(t: Tables, id: ChunkId, len: u64, now: i64, grace: nat)
    requires ZeroRef(t, id)
    ensures id !in GcTables(PutChunkTables(DeleteChunk(t, id).value, id, len), now, grace).chunks
       <==> id in t.gcMarks && SatSub(now, t.gcMarks[id]) >= GraceMs(grace)
  {}

  // ---- soundness and completeness ------------------------------------------

  ghost function Pick(s: set<ChunkId>): (id: ChunkId)
    requires s != {}
    ensures id in s
  {
    var id :| id in s; id
  }

  ghost function SumOver(chunks: Chunks, ids: set<ChunkId>): nat
    requires ids <= chunks.Keys
  {
    if ids == {} then 0 else
      var id := Pick(ids);
      chunks[id].chunkLen + SumOver(chunks, ids - {id})
  }

  /** The stored bytes `status` reports. */
  ghost function SumLen(chunks: Chunks): nat {
    SumOver(chunks, chunks.Keys)
  }

  lemma {:induction false} SumRemove(chunks: Chunks, ids: set<ChunkId>, id: ChunkId)
    requires ids <= chunks.Keys && id in ids
    ensures SumOver(chunks, ids) == chunks[id].chunkLen + SumOver(chunks, ids - {id})
  {
    var first := Pick(ids);
    if first != id {
      SumRemove(chunks, ids - {first}, id);
      SumRemove(chunks, ids - {id}, first);
      assert ids - {first} - {id} == ids - {id} - {first};
    }
  }

  lemma {:induction false} SumSplit(chunks: Chunks, ids: set<ChunkId>, gone: set<ChunkId>)
    requires gone <= ids <= chunks.Keys
    ensures SumOver(chunks, ids) == SumOver(chunks, ids - gone) + SumOver(chunks, gone)
    decreases |gone|
  {
    if gone == {} {
      assert ids - gone == ids;
    } else {
      var id := Pick(gone);
      SumRemove(chunks, ids, id);
      SumSplit(chunks, ids - {id}, gone - {id});
      assert ids - {id} - (gone - {id}) == ids - gone;
    }
  }

  lemma {:induction false} SumAgree(chunks: Chunks, chunks': Chunks, ids: set<ChunkId>)
    requires ids <= chunks.Keys && ids <= chunks'.Keys
    requires forall id | id in ids :: chunks[id] == chunks'[id]
    ensures SumOver(chunks, ids) == SumOver(chunks', ids)
    decreases |ids|
  {
    if ids != {} {
      SumAgree(chunks, chunks', ids - {Pick(ids)});
    }
  }

  /** After `gc`: what is gone was reclaimable and nothing else, the marks are
      exactly the chunks still unreferenced, no surviving record changed, and
      the stored bytes before are those after plus those reclaimed. */
  lemma GcSoundAndComplete(t: Tables, now: i64, grace: nat)
    ensures var t' := GcTables(t, now, grace);
            && (forall id | id in t.chunks :: id !in t'.chunks <==> Reclaimable(t, now, grace, id))
            && t'.chunks.Keys <= t.chunks.Keys
            && (forall id | id in t'.chunks :: t'.chunks[id] == t.chunks[id])
            && (forall id :: id in t'.gcMarks <==> ZeroRef(t', id))
    ensures Reclaimed(t, now, grace) <= t.chunks.Keys
    ensures SumLen(t.chunks) == SumLen(GcTables(t, now, grace).chunks) + SumOver(t.chunks, Reclaimed(t, now, grace))
  {
    var gone := Reclaimed(t, now, grace);
    SumSplit(t.chunks, t.chunks.Keys, gone);
    assert (t.chunks - gone).Keys == t.chunks.Keys - gone;
    SumAgree(t.chunks, t.chunks - gone, t.chunks.Keys - gone);
  }

  lemma TwoGcsLeaveTheCounted(t: Tables, now: i64, grace: nat, now': i64, grace': nat)
    requires forall id | id in t.gcMarks :: t.gcMarks[id] <= now
    requires now + GraceMs(grace') <= now'
    ensures var t'' := GcTables(GcTables(t, now, grace), now', grace');
            && t''.gcMarks == map[]
            && forall id :: id in t''.chunks <==> id in t.chunks && t.chunks[id].refcount > 0
  {
    var t' := GcTables(t, now, grace);
    assert forall id | ZeroRef(t', id) :: Reclaimable(t', now', grace', id);
  }

  /** Two runs at least `grace` apart with the tables untouched between leave
      exactly the chunks that listed snapshots name. */
  lemma TwoGcsLeaveTheReachable(h: Hash, run: Run, grace: nat, s': State, grace': nat)
    requires Legal(h, run) && NoDelete(run)
    requires var s := After(h, run);
             s'.t == DoGc(s, grace).t && s.now + GraceMs(grace') <= s'.now
    ensures forall id :: id in DoGc(s', grace').t.chunks <==> Referenced(RowsOf(After(h, run).t), id)
    ensures DoGc(s', grace').t.gcMarks == map[]
  {
    var s := After(h, run);
    RunKeepsInv(h, run);
    RunKeepsMarksOk(h, run);
    TwoGcsLeaveTheCounted(s.t, s.now, grace, s'.now, grace');
    forall id
      ensures id in s.t.chunks && s.t.chunks[id].refcount > 0 <==> Referenced(RowsOf(s.t), id)
    {
      OccursWhereReferenced(RowsOf(s.t), id);
    }
  }
}
