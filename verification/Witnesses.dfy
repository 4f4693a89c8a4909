/** Legal runs of the store in which a documented promise fails: the conditions
    proved for those promises elsewhere are reached from both sides. */
module Witnesses {
  import opened Bytes
  import opened Wrappers
  import opened ChunkIds
  import opened Index
  import opened Tables
  import opened RefCounts
  import opened Machine
  import opened StoreSafety
  import opened GarbageCollection
  import opened Coverage
  import R = Retention

  lemma Extend(h: Hash, run: Run, step: Step)
    requires Legal(h, run) && Enabled(h, After(h, run), step)
    ensures Legal(h, run + [step]) && After(h, run + [step]) == Apply(h, After(h, run), step)
  {
    assert (run + [step])[..|run|] == run;
  }

  // ---- storing a chunk ----------------------------------------------------------

  function Begun(h: Hash, s: State, id: ChunkId, data: Bytes): State {
    DoPutWrite(h, DoPutBegin(s, id, data, ""), |ObjectFile(h, data)|)
  }

  /** The chunk's file is in place, and its transaction still open. */
  function InPlace(h: Hash, s: State, id: ChunkId, data: Bytes): State {
    DoPutRename(Begun(h, s, id, data))
  }

  predicate CanStore(s: State, id: ChunkId, data: Bytes) {
    s.writer.Idle? && id !in s.t.chunks && id !in s.unlinking && |data| <= U64_MAX
  }

  lemma WriteFile(h: Hash, run: Run, id: ChunkId, data: Bytes) returns (run': Run)
    requires Legal(h, run) && CanStore(After(h, run), id, data)
    ensures Legal(h, run') && After(h, run') == InPlace(h, After(h, run), id, data)
    ensures run' == run + [PutBegin(id, data, ""), PutWrite(|ObjectFile(h, data)|), PutRename]
  {
    var begin, write := PutBegin(id, data, ""), PutWrite(|ObjectFile(h, data)|);
    StoreSteps(h, After(h, run), id, data);
    Extend(h, run, begin);
    Extend(h, run + [begin], write);
    Extend(h, run + [begin] + [write], PutRename);
    OneByOne(run, begin, write, PutRename);
    run' := run + [begin] + [write] + [PutRename];
  }

  lemma StoreSteps(h: Hash, s: State, id: ChunkId, data: Bytes)
    requires CanStore(s, id, data)
    ensures var begin, write := PutBegin(id, data, ""), PutWrite(|ObjectFile(h, data)|);
            && Enabled(h, s, begin)
            && Enabled(h, Apply(h, s, begin), write)
            && Apply(h, Apply(h, s, begin), write) == Begun(h, s, id, data)
            && Enabled(h, Begun(h, s, id, data), PutRename)
            && Apply(h, Begun(h, s, id, data), PutRename) == InPlace(h, s, id, data)
  {
    assert ObjectFile(h, data)[..|ObjectFile(h, data)|] == ObjectFile(h, data);
  }

  lemma OneByOne(run: Run, a: Step, b: Step, c: Step)
    ensures run + [a] + [b] + [c] == run + [a, b, c]
  {}

  lemma Store(h: Hash, run: Run, id: ChunkId, data: Bytes) returns (run': Run)
    requires Legal(h, run) && CanStore(After(h, run), id, data)
    ensures Legal(h, run') && After(h, run') == DoPutCommit(InPlace(h, After(h, run), id, data))
    ensures run' == run + [PutBegin(id, data, ""), PutWrite(|ObjectFile(h, data)|), PutRename, PutCommit]
  {
    run' := WriteFile(h, run, id, data);
    Extend(h, run', PutCommit);
    run' := run' + [PutCommit];
  }

  /** Stored when the clock is `at` and unreferenced, nothing else going on. */
  ghost predicate Lone(s: State, id: ChunkId, len: u64, at: i64) {
    && s.writer.Idle? && s.pruners == map[] && s.unlinking == {} && s.now == at
    && s.t.chunks == map[id := IndexEntry(len, 0)] && s.t.snapshots == map[] && s.t.snapshotRefs == map[]
    && id in s.past.storedAt && s.past.storedAt[id] <= at
  }

  lemma StoreAndMark(h: Hash, id: ChunkId, data: Bytes, grace: nat) returns (run: Run)
    requires |data| <= U64_MAX && grace > 0
    ensures Legal(h, run) && Lone(After(h, run), id, |data|, 0) && After(h, run).t.gcMarks == map[id := 0]
    ensures NoDelete(run) && forall i | 0 <= i < |run| :: !run[i].PutSnap?
  {
    run := Store(h, [], id, data);
    Extend(h, run, Gc(grace));
    var s := After(h, run);
    assert Reclaimed(s.t, 0, grace) == {};
    run := run + [Gc(grace)];
  }

  // ---- a reference that does not reset the timer -----------------------------------

  ghost predicate Increasing(l: seq<Ulid>) {
    forall i, j | 0 <= i < j < |l| :: l[i] < l[j]
  }

  lemma HasMember(l: seq<Ulid>)
    ensures l == [] || exists u :: u in l
  {
    if l != [] {
      assert l[0] in l;
    }
  }

  lemma {:induction false} IncreasingUnique(l: seq<Ulid>, m: seq<Ulid>)
    requires Increasing(l) && Increasing(m) && forall u :: u in l <==> u in m
    ensures l == m
  {
    HasMember(l);
    HasMember(m);
    if l != [] {
      assert l[0] in m && m != [] && m[0] in l;
      assert l[0] == m[0];
      forall u
        ensures u in l[1..] <==> u in m[1..]
      {
        assert u in l <==> u == l[0] || u in l[1..];
        assert u in m <==> u == m[0] || u in m[1..];
      }
      IncreasingUnique(l[1..], m[1..]);
      assert l == [l[0]] + l[1..] && m == [m[0]] + m[1..];
    }
  }

  lemma ListedPair()
    ensures Ascending({1, 2}) == [1, 2]
  {
    IncreasingUnique(Ascending({1, 2}), [1, 2]);
  }

  lemma DropsTheFirst(at: i64)
    ensures DropsOf(Pruner(at, R.DefaultGrid(), Ascending({1, 2}), 0)) == [1]
  {
    ListedPair();
    PruneIgnoresOwners(at, 1, 2);
  }

  /** The tables once snapshot 1 names the chunk, and then snapshot 2 nothing. */
  lemma NamedOnce(t: Tables, id: ChunkId, len: u64)
    requires t.chunks == map[id := IndexEntry(len, 0)] && t.snapshots == map[] && t.snapshotRefs == map[]
    ensures CountsFit(RowsOf(t), [id])
    ensures PutSnapshot(t, 1, [], [id])
         == Ok(t.(chunks := map[id := IndexEntry(len, 1)], snapshots := map[1 := []], snapshotRefs := map[1 := JoinRefs([id])]))
  {
    forall r | r in [id]
      ensures |Occurrences(RowsOf(t), r)| + multiset([id])[r] <= U64_MAX
    {
      assert Occurrences(RowsOf(t), r) == {};
    }
    var chunks := t.chunks[id := AddRef(t.chunks[id])];
    assert chunks == map[id := IndexEntry(len, 1)];
    assert [id][1..] == [] && Bump(chunks, []) == Ok(chunks);
  }

  lemma NamedNone(t: Tables)
    requires 2 !in t.snapshots
    ensures CountsFit(RowsOf(t), [])
    ensures PutSnapshot(t, 2, [], []) == Ok(t.(snapshotRefs := t.snapshotRefs[2 := []], snapshots := t.snapshots[2 := []]))
  {}

  lemma FirstSnapshot(h: Hash, run: Run, id: ChunkId, len: u64, at: i64) returns (run': Run)
    requires Legal(h, run) && Lone(After(h, run), id, len, at)
    ensures run' == run + [PutSnap(1, [], [id])] && Legal(h, run') && References(h, run', |run|, id)
    ensures After(h, run') == DoPutSnap(After(h, run), 1, [], [id])
  {
    NamedOnce(After(h, run).t, id, len);
    Extend(h, run, PutSnap(1, [], [id]));
    run' := run + [PutSnap(1, [], [id])];
    assert run'[..|run|] == run;
  }

  /** The chunk is named by snapshot 1, and snapshot 2 is as old. */
  ghost predicate Named(s: State, id: ChunkId, len: u64, at: i64) {
    && s.writer.Idle? && s.pruners == map[] && s.unlinking == {} && s.now == at
    && s.t.chunks == map[id := IndexEntry(len, 1)] && s.t.snapshots == map[1 := [], 2 := []]
    && s.t.snapshotRefs == map[1 := JoinRefs([id]), 2 := []]
  }

  lemma Snapshots(h: Hash, run: Run, id: ChunkId, len: u64, at: i64) returns (run': Run)
    requires Legal(h, run) && Lone(After(h, run), id, len, at)
    ensures run' == run + [PutSnap(1, [], [id])] + [PutSnap(2, [], [])] && Legal(h, run')
    ensures References(h, run', |run|, id)
    ensures Named(After(h, run'), id, len, at) && After(h, run').t.gcMarks == After(h, run).t.gcMarks
  {
    var run1 := FirstSnapshot(h, run, id, len, at);
    NamedOnce(After(h, run).t, id, len);
    NamedNone(After(h, run1).t);
    Extend(h, run1, PutSnap(2, [], []));
    run' := run1 + [PutSnap(2, [], [])];
    assert run'[..|run|] == run1[..|run|] && run'[|run|] == run1[|run|];
  }

  lemma Unnamed(t: Tables, id: ChunkId, len: u64)
    requires t.chunks == map[id := IndexEntry(len, 1)] && t.snapshots == map[1 := [], 2 := []]
    requires t.snapshotRefs == map[1 := JoinRefs([id]), 2 := []]
    ensures DeleteSnapshot(t, 1)
         == Ok(t.(chunks := map[id := IndexEntry(len, 0)], snapshots := map[2 := []], snapshotRefs := map[2 := []]))
  {
    SplitJoin([id]);
    var chunks := t.chunks[id := DropRef(t.chunks[id])];
    assert chunks == map[id := IndexEntry(len, 0)];
    assert [id][1..] == [] && Unbump(chunks, []) == chunks;
    assert t.snapshots - {1} == map[2 := []] && t.snapshotRefs - {1} == map[2 := []];
  }

  /** A prune drops snapshot 1 for snapshot 2, and the chunk is unreferenced
      again. */
  lemma PruneAway(h: Hash, run: Run, id: ChunkId, len: u64, at: i64) returns (run': Run)
    requires Legal(h, run) && Named(After(h, run), id, len, at)
    ensures run' == run + [PruneList(0, at, R.DefaultGrid())] + [PruneNext(0)] && Legal(h, run')
    ensures var s, s' := After(h, run), After(h, run');
            s'.writer.Idle? && s'.now == at && s'.t.gcMarks == s.t.gcMarks && s'.t.chunks == map[id := IndexEntry(len, 0)]
  {
    DropsTheFirst(at);
    var s := After(h, run);
    assert s.t.snapshots.Keys == {1, 2};
    Extend(h, run, PruneList(0, at, R.DefaultGrid()));
    var run1 := run + [PruneList(0, at, R.DefaultGrid())];
    Unnamed(s.t, id, len);
    Extend(h, run1, PruneNext(0));
    run' := run1 + [PruneNext(0)];
  }

  lemma Wait(h: Hash, run: Run, at: i64) returns (run': Run)
    requires Legal(h, run) && After(h, run).now <= at
    ensures run' == run + [Tick(at)] && Legal(h, run') && After(h, run') == After(h, run).(now := at)
  {
    Extend(h, run, Tick(at));
    run' := run + [Tick(at)];
  }

  lemma ReferencesLater(h: Hash, run: Run, run': Run, k: nat, id: ChunkId)
    requires run <= run' && References(h, run, k, id)
    ensures References(h, run', k, id) && run'[..k] == run[..k]
  {
    assert run'[..k] == run[..k];
  }

  lemma AgedIsReclaimed(t: Tables, id: ChunkId, len: u64, grace: nat)
    requires t.chunks == map[id := IndexEntry(len, 0)] && t.gcMarks == map[id := 0] && grace <= I64_MAX
    ensures id in Reclaimed(t, grace, grace)
  {}

  /** From a marked, unreferenced chunk: a snapshot names it and is pruned away
      at `at`, and time goes on to `end`. */
  lemma NamedAndPruned(h: Hash, run: Run, id: ChunkId, len: u64, at: i64, end: i64) returns (run': Run)
    requires Legal(h, run) && Lone(After(h, run), id, len, at) && at <= end
    ensures run' == run + [PutSnap(1, [], [id])] + [PutSnap(2, [], [])] + [PruneList(0, at, R.DefaultGrid())]
                    + [PruneNext(0)] + [Tick(end)]
    ensures Legal(h, run') && References(h, run', |run|, id) && run'[..|run|] == run
    ensures var s, s' := After(h, run), After(h, run');
            s'.writer.Idle? && s'.now == end && s'.t.gcMarks == s.t.gcMarks && s'.t.chunks == map[id := IndexEntry(len, 0)]
  {
    var run1 := Snapshots(h, run, id, len, at);
    var run2 := PruneAway(h, run1, id, len, at);
    run' := Wait(h, run2, end);
    ReferencesLater(h, run1, run', |run|, id);
  }

  /** A chunk marked at 0, named by a snapshot stored when its grace is over,
      and pruned away at once, is reclaimed that moment: it was referenced
      within the grace, and the timer was not reset. */
  lemma ReferencedWithinGrace(h: Hash, id: ChunkId, data: Bytes, grace: nat) returns (run: Run, k: nat)
    requires |data| <= U64_MAX && 0 < grace <= I64_MAX
    ensures Legal(h, run) && NoDelete(run) && Enabled(h, After(h, run), Gc(grace))
    ensures id in Reclaimed(After(h, run).t, After(h, run).now, grace)
    ensures References(h, run, k, id) && After(h, run).now - After(h, run[..k]).now < GraceMs(grace)
  {
    var run0 := StoreAndMark(h, id, data, grace);
    var run1 := Wait(h, run0, grace);
    k := |run1|;
    run := NamedAndPruned(h, run1, id, |data|, grace, grace);
    AgedIsReclaimed(After(h, run).t, id, |data|, grace);
  }

  // ---- a mark that outlives its chunk ------------------------------------------------

  lemma Deleted(h: Hash, run: Run, id: ChunkId, len: u64, at: i64) returns (run': Run)
    requires Legal(h, run) && Lone(After(h, run), id, len, at)
    ensures run' == run + [Delete(id)] + [Unlink(id)] && Legal(h, run')
    ensures var s, s' := After(h, run), After(h, run');
            s'.writer.Idle? && s'.now == at && s'.t.gcMarks == s.t.gcMarks && s'.t.chunks == map[] && s'.unlinking == {}
  {
    Extend(h, run, Delete(id));
    var run1 := run + [Delete(id)];
    Extend(h, run1, Unlink(id));
    run' := run1 + [Unlink(id)];
  }

  /** A chunk stored, marked, deleted by `delete_chunk` and stored again is
      reclaimed in the very millisecond it was stored, whatever the grace. */
  lemma ReclaimedWhenStored(h: Hash, id: ChunkId, data: Bytes, grace: nat) returns (run: Run)
    requires |data| <= U64_MAX && 0 < grace <= I64_MAX
    ensures Legal(h, run) && Enabled(h, After(h, run), Gc(grace))
    ensures var s := After(h, run);
            id in Reclaimed(s.t, s.now, grace) && id in s.past.storedAt && s.now - s.past.storedAt[id] < GraceMs(grace)
  {
    var run0 := StoreAndMark(h, id, data, grace);
    var run1 := Deleted(h, run0, id, |data|, 0);
    var run2 := Wait(h, run1, grace);
    run := Store(h, run2, id, data);
    AgedIsReclaimed(After(h, run).t, id, |data|, grace);
  }

  // ---- a rename that is refused ------------------------------------------------------

  lemma RefusedReads(h: Hash, s: State, id: ChunkId, first: Bytes, second: Bytes)
    requires Inv(h, s) && s.writer == Writing(id, second, TmpPath(id, "")) && id !in s.t.chunks
    requires ObjectPath(id) in s.disk && s.disk[ObjectPath(id)] == ObjectFile(h, first)
    requires |first| <= U64_MAX && |second| <= U64_MAX && first != second
    ensures var s' := DoPutCommit(DoRenameRefused(s));
            && !Backed(h, s')
            && GetChunk(h, s'.t, s'.disk, id)
               == if |first| == |second| then Ok(first) else Err(LengthMismatch(id, |second|, |first|))
  {
    assert ObjectFile(h, first)[ID_LEN..] == first && ObjectFile(h, first)[..ID_LEN] == h(first);
    assert ObjectFile(h, second)[ID_LEN..] == second;
    RenameFallbackIff(h, s);
    TmpIsNoObject(TmpPath(id, ""));
  }

  /** A file in place, the daemon crashed, and a second write begun. */
  lemma BegunAgain(h: Hash, id: ChunkId, first: Bytes, second: Bytes) returns (run: Run)
    requires |first| <= U64_MAX && |second| <= U64_MAX
    ensures Legal(h, run)
    ensures var s := After(h, run);
            && s.writer == Writing(id, second, TmpPath(id, "")) && s.t.chunks == map[]
            && ObjectPath(id) in s.disk && s.disk[ObjectPath(id)] == ObjectFile(h, first)
            && TmpPath(id, "") in s.disk && s.disk[TmpPath(id, "")] == ObjectFile(h, second)
  {
    var run1 := WriteFile(h, [], id, first);
    Extend(h, run1, Crash);
    Extend(h, run1 + [Crash], PutBegin(id, second, ""));
    var run2 := run1 + [Crash] + [PutBegin(id, second, "")];
    Extend(h, run2, PutWrite(|ObjectFile(h, second)|));
    run := run2 + [PutWrite(|ObjectFile(h, second)|)];
    assert ObjectFile(h, first)[..|ObjectFile(h, first)|] == ObjectFile(h, first);
    assert ObjectFile(h, second)[..|ObjectFile(h, second)|] == ObjectFile(h, second);
    TmpIsNoObject(TmpPath(id, ""));
  }

  /** A chunk's file is in place when the daemon crashes, the client uploads
      the chunk again in another encryption, and the rename is refused: what
      is then read is the first encryption, or, if the two differ in length,
      an error. */
  lemma RenameRefusedAfterCrash(h: Hash, id: ChunkId, first: Bytes, second: Bytes) returns (run: Run)
    requires |first| <= U64_MAX && |second| <= U64_MAX && first != second
    ensures Legal(h, run)
    ensures var s := After(h, run);
            && s.writer == Writing(id, second, TmpPath(id, "")) && id !in s.t.chunks && Enabled(h, s, PutRename)
            && var s' := DoPutCommit(DoRenameRefused(s));
               && !Backed(h, s')
               && GetChunk(h, s'.t, s'.disk, id)
                  == if |first| == |second| then Ok(first) else Err(LengthMismatch(id, |second|, |first|))
  {
    run := BegunAgain(h, id, first, second);
    RunKeepsInv(h, run);
    RefusedReads(h, After(h, run), id, first, second);
  }
}
