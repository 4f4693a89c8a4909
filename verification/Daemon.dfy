/** The daemon as a client sees it: each call finds that others (backups,
    prunes, gcs, crashes and restarts) have moved the store on since the last,
    and can be refused, lose its reply, get a malformed one, or get bytes that
    were never stored. What the others do is decided in advance by `turns`, so
    a result for every daemon is one for every interleaving. */
module Daemon {
  import opened Bytes
  import opened Wrappers
  import opened ChunkIds
  import opened Tables
  import opened Machine
  import opened StoreSafety
  import opened Protocol

  datatype Outcome = Done | Refused | ReplyLost | Garbled | Forged(reply: Bytes)

  datatype Turn = Turn(others: Run, outcome: Outcome)

  datatype RpcError = Failed | Malformed | Rejected(e: StoreError)

  ghost predicate HonestTurns(c: BackupSet, turns: seq<Turn>) {
    forall i | 0 <= i < |turns| :: HonestRun(c, turns[i].others) && !turns[i].outcome.Forged?
  }

  function NextOutcome(turns: seq<Turn>): Outcome {
    if turns == [] then Done else turns[0].outcome
  }

  function Rest(turns: seq<Turn>): seq<Turn> {
    if turns == [] then [] else turns[1..]
  }

  /** The next `n` turns let a call through. */
  predicate AllDone(turns: seq<Turn>, n: nat) {
    forall i | 0 <= i < n && i < |turns| :: turns[i].outcome.Done?
  }

  function ErrorOf(outcome: Outcome): RpcError {
    if outcome.Garbled? then Malformed else Failed
  }

  function Remaining(turns: seq<Turn>, n: nat): seq<Turn> {
    if n <= |turns| then turns[n..] else []
  }

  /** How many of the turns do not let their call through. */
  function Failures(turns: seq<Turn>): nat {
    if turns == [] then 0 else (if turns[0].outcome.Done? then 0 else 1) + Failures(turns[1..])
  }

  predicate NoFailures(turns: seq<Turn>) { Failures(turns) == 0 }

  lemma TurnByTurn(turns: seq<Turn>, i: nat, n: nat)
    requires i < n
    ensures Rest(Remaining(turns, i)) == Remaining(turns, i + 1)
    ensures var outcome := NextOutcome(Remaining(turns, i));
            if outcome.Done? then AllDone(turns, i) ==> AllDone(turns, i + 1) else !AllDone(turns, n)
  {
    if i < |turns| && !turns[i].outcome.Done? {
      assert !AllDone(turns, n);
    }
  }

  class Daemon {
    const h: Hash
    var state: State
    var turns: seq<Turn>
    ghost var run: Run

    ghost predicate Valid()
      reads this
    {
      Legal(h, run) && state == After(h, run)
    }

    ghost predicate Safe(c: BackupSet)
      reads this
    {
      Valid() && HonestRun(c, run) && HonestTurns(c, turns)
    }

    constructor (h: Hash, turns: seq<Turn>)
      ensures Valid() && run == [] && this.turns == turns
    {
      this.h, this.turns, state, run := h, turns, Init(), [];
    }

    method Take(ghost c: BackupSet, step: Step)
      requires Valid() && Enabled(h, state, step)
      modifies this
      ensures Valid() && run == old(run) + [step] && turns == old(turns)
      ensures state == Apply(h, old(state), step)
      ensures old(Safe(c)) && (step.PutBegin? ==> Honest(c, step.id, step.data)) ==> Safe(c)
    {
      state := Apply(h, state, step);
      run := run + [step];
      assert run[..|run| - 1] == old(run);
    }

    /** The others' turn before a call: every step of theirs that is possible
        when it comes up happens. */
    method Others(ghost c: BackupSet) returns (outcome: Outcome)
      requires Valid()
      modifies this
      ensures Valid() && (old(Safe(c)) ==> Safe(c)) && old(run) <= run
      ensures outcome == NextOutcome(old(turns)) && turns == Rest(old(turns))
      ensures Failures(turns) <= Failures(old(turns)) && (!outcome.Done? ==> Failures(old(turns)) > 0)
    {
      if turns == [] {
        return Done;
      }
      var turn := turns[0];
      turns := turns[1..];
      for i := 0 to |turn.others|
        invariant Valid() && (old(Safe(c)) ==> Safe(c)) && old(run) <= run && turns == old(turns)[1..]
      {
        if Enabled(h, state, turn.others[i]) {
          Take(c, turn.others[i]);
        }
      }
      outcome := turn.outcome;
    }

    /** `HasChunks`: each identity looked up in turn. */
    method HasChunks(ghost c: BackupSet, ids: seq<ChunkId>) returns (r: Result<set<ChunkId>, RpcError>)
      requires Safe(c)
      modifies this
      ensures Safe(c) && old(run) <= run
      ensures r.Ok? ==> Answers(h, run, |old(run)|, ids, r.value)
      ensures r.Ok? <==> AllDone(old(turns), |ids|)
      ensures r.Err? ==> !r.error.Rejected? && !NoFailures(old(turns))
      ensures Failures(turns) <= Failures(old(turns))
    {
      var missing: set<ChunkId> := {};
      for i := 0 to |ids|
        invariant Safe(c) && old(run) <= run
        invariant forall id | id in missing :: id in ids && WasAbsent(h, run, |old(run)|, id)
        invariant forall k | 0 <= k < i && ids[k] !in missing :: WasIndexed(h, run, |old(run)|, ids[k])
        invariant turns == Remaining(old(turns), i) && AllDone(old(turns), i)
        invariant Failures(turns) <= Failures(old(turns))
      {
        ghost var before := run;
        TurnByTurn(old(turns), i, |ids|);
        var outcome := Others(c);
        IndexedLater(h, before, run, |old(run)|);
        AbsentLater(h, before, run, |old(run)|);
        if outcome != Done {
          return Err(ErrorOf(outcome));
        }
        assert run[..|run|] == run;
        if ids[i] in state.t.chunks {
          assert IndexedAt(h, run, |run|, ids[i]);
        } else {
          assert AbsentAt(h, run, |run|, ids[i]);
          missing := missing + {ids[i]};
        }
      }
      r := Ok(missing);
    }

    /** A write the store cannot begin. */
    static predicate Busy(s: State, id: ChunkId, data: Bytes) {
      !s.writer.Idle? || (id !in s.t.chunks && (id in s.unlinking || |data| > U64_MAX))
    }

    /** The sub-steps of a chunk write that nothing cuts short. */
    static function PutSteps(h: Hash, id: ChunkId, data: Bytes): Run {
      [PutBegin(id, data, ""), PutWrite(|ObjectFile(h, data)|), PutRename, PutCommit]
    }

    /** `put_chunk` as one call of the store, its sub-steps in order. */
    method PutChunk(ghost c: BackupSet, id: ChunkId, data: Bytes) returns (r: Result<bool, RpcError>)
      requires Safe(c) && Honest(c, id, data)
      modifies this
      ensures Safe(c) && old(run) <= run && turns == old(turns)
      ensures r.Ok? ==> id in state.t.chunks && (r.value <==> id !in old(state).t.chunks)
      ensures run == if r == Ok(true) then old(run) + PutSteps(h, id, data) else old(run)
      ensures r.Err? <==> Busy(old(state), id, data)
    {
      if !state.writer.Idle? {
        return Err(Failed);
      }
      if id in state.t.chunks {
        return Ok(false);
      }
      if id in state.unlinking || |data| > U64_MAX {
        return Err(Failed);
      }
      Take(c, PutBegin(id, data, ""));
      Take(c, PutWrite(|ObjectFile(h, data)|));
      assert ObjectFile(h, data)[..|ObjectFile(h, data)|] == ObjectFile(h, data);
      Take(c, PutRename);
      Take(c, PutCommit);
      r := Ok(true);
    }

    /** `UploadChunks`: a stream of blobs, each stored or found present. */
    method UploadChunks(ghost c: BackupSet, blobs: seq<(ChunkId, Bytes)>) returns (r: Result<(nat, nat), RpcError>)
      requires Safe(c) && forall i | 0 <= i < |blobs| :: Honest(c, blobs[i].0, blobs[i].1)
      modifies this
      ensures Safe(c) && old(run) <= run
      ensures r.Ok? ==> r.value.0 + r.value.1 == |blobs|
      ensures r.Ok? ==> AllIndexed(h, run, |old(run)|, blobs)
      ensures r.Err? ==> !r.error.Rejected?
      ensures r.Err? && NoFailures(old(turns)) ==>
                r.error == Failed && exists i :: 0 <= i < |blobs| && Busy(state, blobs[i].0, blobs[i].1)
      ensures Failures(turns) <= Failures(old(turns))
    {
      var stored, alreadyPresent := 0, 0;
      for i := 0 to |blobs|
        invariant Safe(c) && old(run) <= run && stored + alreadyPresent == i
        invariant forall k | 0 <= k < i :: WasIndexed(h, run, |old(run)|, blobs[k].0)
        invariant Failures(turns) <= Failures(old(turns))
      {
        ghost var before := run;
        var outcome := Others(c);
        if outcome.Refused? {
          return Err(Failed);
        }
        var one := PutChunk(c, blobs[i].0, blobs[i].1);
        IndexedLater(h, before, run, |old(run)|);
        if one.Err? || outcome != Done {
          return Err(ErrorOf(outcome));
        }
        assert run[..|run|] == run;
        assert IndexedAt(h, run, |run|, blobs[i].0);
        if one.value {
          stored := stored + 1;
        } else {
          alreadyPresent := alreadyPresent + 1;
        }
      }
      r := Ok((stored, alreadyPresent));
    }

    /** `PutManifest`. The prune that follows it is among the others' steps.
        `at` is the length of the run when the snapshot was committed. */
    method PutManifest(ghost c: BackupSet, u: Ulid, blob: Bytes, refs: seq<ChunkId>)
      returns (r: Result<(), RpcError>, ghost at: nat)
      requires Safe(c)
      modifies this
      ensures Safe(c) && old(run) <= run
      ensures r.Ok? ==> |old(run)| < at <= |run| && StoredAt(h, run, at, u, blob, refs)
      ensures r.Err? && r.error.Rejected? ==> |old(run)| < at <= |run| && RejectedAt(h, run, at, u, blob, refs, r.error.e)
      ensures r.Err? ==> !r.error.Malformed?
      ensures r == Err(Failed) && NoFailures(old(turns)) ==> !Enabled(h, state, PutSnap(u, blob, refs))
      ensures Failures(turns) <= Failures(old(turns))
    {
      at := 0;
      var outcome := Others(c);
      if outcome.Refused? || !Enabled(h, state, PutSnap(u, blob, refs)) {
        return Err(Failed), at;
      }
      var result := PutSnapshot(state.t, u, blob, refs);
      ghost var before := run;
      Take(c, PutSnap(u, blob, refs));
      at := |run|;
      ghost var taken := run;
      SnapshotTaken(h, before, taken, u, blob, refs);
      var after := Others(c);
      assert taken <= run;
      TakenLater(h, taken, run, u, blob, refs);
      if outcome != Done || after != Done {
        return Err(Failed), at;
      }
      if result.Err? {
        return Err(Rejected(result.error)), at;
      }
      r := Ok(());
    }

    /** A forged reply can carry any bytes. */
    method GetManifestBlob(ghost c: BackupSet, u: Ulid) returns (r: Result<Bytes, RpcError>)
      requires Valid()
      modifies this
      ensures Valid() && (old(Safe(c)) ==> Safe(c)) && old(run) <= run
      ensures old(Safe(c)) && r.Ok? ==> u in state.t.snapshots && r.value == state.t.snapshots[u]
      ensures Failures(turns) <= Failures(old(turns))
      ensures NoFailures(old(turns)) ==> (r.Ok? <==> u in state.t.snapshots)
    {
      var outcome := Others(c);
      if outcome.Forged? {
        return Ok(outcome.reply);
      }
      if outcome != Done {
        return Err(ErrorOf(outcome));
      }
      r := if u in state.t.snapshots then Ok(state.t.snapshots[u]) else Err(Rejected(SnapshotNotFound(u)));
    }

    method ReadChunk(ghost c: BackupSet, id: ChunkId) returns (r: Result<Bytes, RpcError>)
      requires Valid()
      modifies this
      ensures Valid() && (old(Safe(c)) ==> Safe(c)) && old(run) <= run
      ensures old(Safe(c)) && r.Ok? ==> GetChunk(h, state.t, state.disk, id) == Ok(r.value)
      ensures Failures(turns) <= Failures(old(turns))
      ensures NoFailures(old(turns)) ==> (r.Ok? <==> GetChunk(h, state.t, state.disk, id).Ok?)
    {
      var outcome := Others(c);
      if outcome.Forged? {
        return Ok(outcome.reply);
      }
      if outcome != Done {
        return Err(ErrorOf(outcome));
      }
      var got := GetChunk(h, state.t, state.disk, id);
      r := if got.Ok? then Ok(got.value) else Err(Rejected(got.error));
    }
  }

  ghost predicate IndexedAt(h: Hash, run: Run, n: nat, id: ChunkId) {
    n <= |run| && Legal(h, run[..n]) && id in After(h, run[..n]).t.chunks
  }

  /** The chunk was in the index at some moment from `from` on. */
  ghost predicate WasIndexed(h: Hash, run: Run, from: nat, id: ChunkId) {
    exists n :: from <= n <= |run| && IndexedAt(h, run, n, id)
  }

  ghost function IndexedIds(h: Hash, run: Run, from: nat): iset<ChunkId> {
    iset id | WasIndexed(h, run, from, id)
  }

  ghost predicate AbsentAt(h: Hash, run: Run, n: nat, id: ChunkId) {
    n <= |run| && Legal(h, run[..n]) && id !in After(h, run[..n]).t.chunks
  }

  /** The chunk was not in the index at some moment from `from` on. */
  ghost predicate WasAbsent(h: Hash, run: Run, from: nat, id: ChunkId) {
    exists n :: from <= n <= |run| && AbsentAt(h, run, n, id)
  }

  /** Each verdict was true at some moment from `from` on. */
  ghost predicate Answers(h: Hash, run: Run, from: nat, ids: seq<ChunkId>, missing: set<ChunkId>) {
    && (forall id | id in missing :: id in ids && WasAbsent(h, run, from, id))
    && (forall id | id in ids && id !in missing :: WasIndexed(h, run, from, id))
  }

  ghost predicate AllIndexed(h: Hash, run: Run, from: nat, blobs: seq<(ChunkId, Bytes)>) {
    forall i | 0 <= i < |blobs| :: WasIndexed(h, run, from, blobs[i].0)
  }

  lemma AbsentLater(h: Hash, run: Run, run': Run, from: nat)
    requires run <= run'
    ensures forall id | WasAbsent(h, run, from, id) :: WasAbsent(h, run', from, id)
  {
    forall id | WasAbsent(h, run, from, id)
      ensures WasAbsent(h, run', from, id)
    {
      var n :| from <= n <= |run| && AbsentAt(h, run, n, id);
      assert run'[..n] == run[..n];
      assert AbsentAt(h, run', n, id);
    }
  }

  lemma IndexedLater(h: Hash, run: Run, run': Run, from: nat)
    requires run <= run'
    ensures forall id | WasIndexed(h, run, from, id) :: WasIndexed(h, run', from, id)
  {
    forall id | WasIndexed(h, run, from, id)
      ensures WasIndexed(h, run', from, id)
    {
      var n :| from <= n <= |run| && IndexedAt(h, run, n, id);
      assert run'[..n] == run[..n];
      assert IndexedAt(h, run', n, id);
    }
  }

  ghost predicate RejectedAt(h: Hash, run: Run, at: nat, u: Ulid, blob: Bytes, refs: seq<ChunkId>, e: StoreError) {
    && 0 < at <= |run| && Legal(h, run[..at - 1])
    && PutSnapshot(After(h, run[..at - 1]).t, u, blob, refs) == Err(e)
  }

  lemma SnapshotTaken(h: Hash, before: Run, taken: Run, u: Ulid, blob: Bytes, refs: seq<ChunkId>)
    requires taken == before + [PutSnap(u, blob, refs)] && Legal(h, before) && Legal(h, taken)
    requires Enabled(h, After(h, before), PutSnap(u, blob, refs))
    requires After(h, taken) == DoPutSnap(After(h, before), u, blob, refs)
    ensures var result := PutSnapshot(After(h, before).t, u, blob, refs);
            if result.Ok? then StoredAt(h, taken, |taken|, u, blob, refs)
            else RejectedAt(h, taken, |taken|, u, blob, refs, result.error)
  {
    assert taken[..|taken|] == taken && taken[..|taken| - 1] == before;
  }

  lemma TakenLater(h: Hash, taken: Run, run: Run, u: Ulid, blob: Bytes, refs: seq<ChunkId>)
    requires taken <= run
    ensures StoredAt(h, taken, |taken|, u, blob, refs) ==> StoredAt(h, run, |taken|, u, blob, refs)
    ensures forall e | RejectedAt(h, taken, |taken|, u, blob, refs, e) :: RejectedAt(h, run, |taken|, u, blob, refs, e)
  {
    assert taken[..|taken|] == taken == run[..|taken|];
    if taken != [] {
      assert taken[..|taken| - 1] == run[..|taken| - 1];
    }
  }

  ghost predicate StoredAt(h: Hash, run: Run, at: nat, u: Ulid, blob: Bytes, refs: seq<ChunkId>) {
    && at <= |run| && Legal(h, run[..at])
    && var t := After(h, run[..at]).t;
       && u in t.snapshots && t.snapshots[u] == blob
       && u in t.snapshotRefs && t.snapshotRefs[u] == JoinRefs(refs)
  }
}
