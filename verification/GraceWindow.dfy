/** A backup between its first question to the daemon and its manifest: which
    of its chunks a concurrent `gc` can take away. */
module GraceWindow {
  import opened Bytes
  import opened ChunkIds
  import opened Tables
  import opened Machine
  import opened StoreSafety
  import opened GarbageCollection
  import opened Daemon

  /** Step `i` is a `gc` that reclaims the chunk. */
  ghost predicate SweptAt(h: Hash, run: Run, i: nat, id: ChunkId) {
    && i < |run| && run[i].Gc? && Legal(h, run[..i])
    && id in Reclaimed(After(h, run[..i]).t, After(h, run[..i]).now, run[i].grace)
  }

  ghost predicate InTime(h: Hash, run: Run, from: nat, i: nat) {
    from <= i < |run| && run[i].Gc? && Legal(h, run[..from]) && Legal(h, run[..i]) ==>
      After(h, run[..i]).now < After(h, run[..from]).now + GraceMs(run[i].grace)
  }

  /** Every `gc` since step `from` came before its own grace had passed. */
  ghost predicate Quick(h: Hash, run: Run, from: nat) {
    forall i | from <= i < |run| :: InTime(h, run, from, i)
  }

  /** The chunk was not in the index at some moment from `from` on, and in it
      at a later one. */
  ghost predicate WasStored(h: Hash, run: Run, from: nat, id: ChunkId) {
    exists m, n :: from <= m <= n <= |run| && AbsentAt(h, run, m, id) && IndexedAt(h, run, n, id)
  }

  ghost function StoredIds(h: Hash, run: Run, from: nat): iset<ChunkId> {
    iset id | WasStored(h, run, from, id)
  }

  lemma StoredLater(h: Hash, run: Run, run': Run, from: nat, id: ChunkId)
    requires run <= run' && WasStored(h, run, from, id)
    ensures WasStored(h, run', from, id)
  {
    var m, n :| from <= m <= n <= |run| && AbsentAt(h, run, m, id) && IndexedAt(h, run, n, id);
    assert run'[..m] == run[..m] && run'[..n] == run[..n];
    assert AbsentAt(h, run', m, id) && IndexedAt(h, run', n, id);
  }

  lemma StoredEarlier(h: Hash, run: Run, from: nat, later: nat, id: ChunkId)
    requires from <= later && WasStored(h, run, later, id)
    ensures WasStored(h, run, from, id)
  {
    var m, n :| later <= m <= n <= |run| && AbsentAt(h, run, m, id) && IndexedAt(h, run, n, id);
  }

  /** Reported missing by the end of `run1`, and indexed after it. */
  lemma StoredBetween(h: Hash, run1: Run, run2: Run, from: nat, id: ChunkId)
    requires run1 <= run2 && WasAbsent(h, run1, from, id) && WasIndexed(h, run2, |run1|, id)
    ensures WasStored(h, run2, from, id)
  {
    var m :| from <= m <= |run1| && AbsentAt(h, run1, m, id);
    var n :| |run1| <= n <= |run2| && IndexedAt(h, run2, n, id);
    assert run2[..m] == run1[..m];
    assert AbsentAt(h, run2, m, id);
  }

  // ---- when it was stored ------------------------------------------------------

  ghost predicate StoredFrom(s: State, id: ChunkId, at: i64) {
    at <= s.now && (id in s.t.chunks ==> id in s.past.storedAt && at <= s.past.storedAt[id])
  }

  lemma StepKeepsStoredFrom(h: Hash, s: State, step: Step, id: ChunkId, at: i64)
    requires Inv(h, s) && Enabled(h, s, step) && !step.Delete? && StoredFrom(s, id, at)
    ensures StoredFrom(Apply(h, s, step), id, at)
  {
    if !step.Gc? {
      OnlyGcTouchesMarks(h, s, step);
      StepKeepsInv(h, s, step);
    }
  }

  lemma {:induction false} ClockRuns(h: Hash, run: Run, from: nat, k: nat)
    requires Legal(h, run) && from <= k <= |run|
    ensures Legal(h, run[..from]) && Legal(h, run[..k]) && After(h, run[..from]).now <= After(h, run[..k]).now
  {
    LegalPrefix(h, run, from);
    if from < k {
      ClockRuns(h, run, from, k - 1);
      LegalPrefix(h, run, k - 1);
    }
  }

  lemma {:induction false} StoredSince(h: Hash, run: Run, from: nat, m: nat, k: nat, id: ChunkId)
    requires Legal(h, run) && NoDelete(run) && AbsentAt(h, run, m, id) && from <= m <= k <= |run|
    ensures Legal(h, run[..from]) && Legal(h, run[..k])
    ensures StoredFrom(After(h, run[..k]), id, After(h, run[..from]).now)
  {
    ClockRuns(h, run, from, m);
    if m < k {
      StoredSince(h, run, from, m, k - 1, id);
      LegalPrefix(h, run, k - 1);
      RunKeepsInv(h, run[..k - 1]);
      StepKeepsStoredFrom(h, After(h, run[..k - 1]), run[k - 1], id, After(h, run[..from]).now);
    }
  }

  // ---- what takes a chunk away ---------------------------------------------------

  lemma SnapshotsKeepChunks(h: Hash, s: State, step: Step)
    requires Enabled(h, s, step) && (step.PutSnap? || step.PruneNext?)
    ensures Apply(h, s, step).t.chunks.Keys == s.t.chunks.Keys
  {
    if step.PutSnap? {
      BumpCounts(s.t.chunks, step.refs);
    } else {
      UnbumpCounts(s.t.chunks, RefsOf(s.t, DropsOf(s.pruners[step.p])[s.pruners[step.p].next]));
    }
  }

  lemma OnlyGcReclaims(h: Hash, s: State, step: Step, id: ChunkId)
    requires Enabled(h, s, step) && !step.Delete?
    requires id in s.t.chunks && id !in Apply(h, s, step).t.chunks
    ensures step.Gc? && id in Reclaimed(s.t, s.now, step.grace)
  {
    if step.PutSnap? || step.PruneNext? {
      SnapshotsKeepChunks(h, s, step);
    }
  }

  lemma LostByStep(h: Hash, run: Run, i: nat, id: ChunkId)
    requires Legal(h, run) && NoDelete(run) && i < |run|
    requires AbsentAt(h, run, i + 1, id) && !AbsentAt(h, run, i, id)
    ensures SweptAt(h, run, i, id)
  {
    LegalPrefix(h, run, i);
    OnlyGcReclaims(h, After(h, run[..i]), run[i], id);
  }

  lemma {:induction false} LostToGc(h: Hash, run: Run, n: nat, k: nat, id: ChunkId) returns (i: nat)
    requires Legal(h, run) && NoDelete(run) && n <= k
    requires !AbsentAt(h, run, n, id) && AbsentAt(h, run, k, id)
    ensures n <= i < k && SweptAt(h, run, i, id)
  {
    i := k - 1;
    if AbsentAt(h, run, i, id) {
      i := LostToGc(h, run, n, i, id);
    } else {
      LostByStep(h, run, i, id);
    }
  }

  /** The mark a `gc` acted on was older than the moment `from`. */
  ghost predicate MarkedBefore(h: Hash, run: Run, from: nat, i: nat, id: ChunkId) {
    && from <= i <= |run| && Legal(h, run[..from]) && Legal(h, run[..i])
    && id in After(h, run[..i]).t.gcMarks
    && After(h, run[..i]).t.gcMarks[id] < After(h, run[..from]).now
  }

  lemma SweptOnOldMark(h: Hash, run: Run, from: nat, i: nat, id: ChunkId)
    requires Legal(h, run) && NoDelete(run) && from <= i && InTime(h, run, from, i) && SweptAt(h, run, i, id)
    ensures MarkedBefore(h, run, from, i, id)
    ensures var s := After(h, run[..i]);
            id in s.past.storedAt && s.past.storedAt[id] < After(h, run[..from]).now
  {
    LegalPrefix(h, run, i);
    LegalPrefix(h, run, from);
    RunKeepsInv(h, run[..i]);
    SweptWasIndexed(After(h, run[..i]).t, After(h, run[..i]).now, run[i].grace, id);
    GcHonoursGrace(h, run[..i], run[i].grace, id);
  }

  lemma SweptWasIndexed(t: Tables, now: i64, grace: nat, id: ChunkId)
    requires id in Reclaimed(t, now, grace)
    ensures id in t.chunks && id !in GcTables(t, now, grace).chunks
  {}

  /** A chunk stored since `from` outlasts every `gc` that comes in time. */
  lemma StoredIsKept(h: Hash, run: Run, from: nat, m: nat, n: nat, k: nat, id: ChunkId)
    requires Legal(h, run) && NoDelete(run) && Quick(h, run, from)
    requires from <= m <= n <= k <= |run| && AbsentAt(h, run, m, id) && IndexedAt(h, run, n, id)
    ensures IndexedAt(h, run, k, id)
  {
    LegalPrefix(h, run, k);
    if id !in After(h, run[..k]).t.chunks {
      var i := LostToGc(h, run, n, k, id);
      assert InTime(h, run, from, i);
      SweptOnOldMark(h, run, from, i, id);
      StoredSince(h, run, from, m, i, id);
      assert false;
    }
  }

  lemma StoredOutlasts(h: Hash, run1: Run, run: Run, from: nat, at: nat, id: ChunkId)
    requires Legal(h, run) && NoDelete(run) && Quick(h, run, from) && run1 <= run && |run1| <= at <= |run|
    requires WasStored(h, run1, from, id)
    ensures IndexedAt(h, run, at, id)
  {
    var m, n :| from <= m <= n <= |run1| && AbsentAt(h, run1, m, id) && IndexedAt(h, run1, n, id);
    assert run[..m] == run1[..m] && run[..n] == run1[..n];
    StoredIsKept(h, run, from, m, n, at, id);
  }

  /** Between `from` and `at` a `gc` reclaimed the chunk, and if it came in time,
      on a mark older than `from`. */
  ghost predicate LostSince(h: Hash, run: Run, from: nat, at: nat, id: ChunkId) {
    exists i :: from <= i < at && SweptAt(h, run, i, id) && (InTime(h, run, from, i) ==> MarkedBefore(h, run, from, i, id))
  }

  /** A chunk that was in the index since `from` and is missing at `at` was lost
      to a `gc`; and it is none of those stored since `from`, if every `gc`
      came in time. */
  lemma MissingWasLost(h: Hash, run1: Run, run: Run, from: nat, at: nat, id: ChunkId)
    requires Legal(h, run) && NoDelete(run) && run1 <= run && |run1| <= at
    requires WasIndexed(h, run1, from, id) && AbsentAt(h, run, at, id)
    ensures LostSince(h, run, from, at, id)
    ensures Quick(h, run, from) ==> !WasStored(h, run1, from, id)
  {
    var n :| from <= n <= |run1| && IndexedAt(h, run1, n, id);
    assert run[..n] == run1[..n];
    var i := LostToGc(h, run, n, at, id);
    if InTime(h, run, from, i) {
      SweptOnOldMark(h, run, from, i, id);
    }
    if Quick(h, run, from) && WasStored(h, run1, from, id) {
      StoredOutlasts(h, run1, run, from, at, id);
    }
  }
}
