/** The daemon's chunk store as a machine that takes one atomic step at a
    time: the sub-steps of a chunk write, index transactions, the unlinks that
    follow a `gc`, the deletions that follow a prune's listing, the clock, and
    a crash between any two of them. */
module Machine {
  import opened Bytes
  import opened Wrappers
  import opened ChunkIds
  import opened Tables
  import opened RefCounts
  import R = Retention

  /** BLAKE3, of which the store relies only on its being a function. */
  type Hash = Bytes -> ChunkId

  type Disk = map<Path, Bytes>

  /** What an object file must hold for a blob. */
  function ObjectFile(h: Hash, data: Bytes): Bytes {
    h(data) + data
  }

  /** The one write transaction redb admits at a time, as far as a chunk write
      holds it open across file operations. */
  datatype Writer =
    | Idle
    | Writing(id: ChunkId, data: Bytes, tmp: Path)
    | Renamed(id: ChunkId, data: Bytes)

  /** A prune that has listed and planned, and has deleted `next` drops. */
  datatype Pruner = Pruner(at: i64, grid: R.Grid, listed: seq<Ulid>, next: nat)

  datatype GcRun = GcRun(at: i64, zero: set<ChunkId>)

  /** What happened so far, read by no step: the bytes each indexed chunk was
      stored with and when, the snapshots ever stored, and the `gc` runs. */
  datatype History = History(
    blobs: map<ChunkId, Bytes>,
    storedAt: map<ChunkId, i64>,
    ever: set<Ulid>,
    gcRuns: seq<GcRun>)

  datatype State = State(
    t: Tables,
    disk: Disk,
    writer: Writer,
    unlinking: set<ChunkId>,
    pruners: map<nat, Pruner>,
    now: i64,
    past: History)

  datatype Step =
    | Tick(at: i64)
    | PutBegin(id: ChunkId, data: Bytes, unique: string)
    | PutWrite(upTo: nat)
    | PutRename
    | PutCommit
    | PutFail(cleaned: bool)
    | PutSnap(u: Ulid, blob: Bytes, refs: seq<ChunkId>)
    | PruneList(p: nat, planAt: i64, grid: R.Grid)
    | PruneNext(p: nat)
    | PruneEnd(p: nat)
    | Gc(grace: nat)
    | Delete(id: ChunkId)
    | Unlink(id: ChunkId)
    | Crash
    | Sweep(file: Path)

  function Init(): State {
    State(EMPTY, map[], Idle, {}, map[], 0, History(map[], map[], {}, []))
  }

  // ---- listing -----------------------------------------------------------

  predicate IsLeast(s: set<Ulid>, u: Ulid) {
    u in s && forall v | v in s :: u <= v
  }

  lemma {:induction false} LeastExists(s: set<Ulid>)
    requires s != {}
    ensures exists u :: IsLeast(s, u)
  {
    var x :| x in s;
    if s - {x} == {} {
      assert s == {x};
      assert IsLeast(s, x);
    } else {
      LeastExists(s - {x});
      var y :| IsLeast(s - {x}, y);
      assert forall v | v in s :: v == x || v in s - {x};
      assert IsLeast(s, if x <= y then x else y);
    }
  }

  /** `list_snapshots`: the table's keys in key order. */
  function Ascending(s: set<Ulid>): (l: seq<Ulid>)
    ensures forall u :: u in l <==> u in s
    ensures forall i, j | 0 <= i < j < |l| :: l[i] < l[j]
  {
    if s == {} then [] else
      LeastExists(s);
      var u :| IsLeast(s, u);
      [u] + Ascending(s - {u})
  }

  function Items(listed: seq<Ulid>): (items: R.Dated<Ulid>)
    ensures |items| == |listed| && forall i | 0 <= i < |listed| :: items[i] == (UlidTime(listed[i]), listed[i])
  {
    seq(|listed|, i requires 0 <= i < |listed| => (UlidTime(listed[i]), listed[i]))
  }

  function DropsOf(p: Pruner): seq<Ulid> {
    R.PlanOf(p.at, p.grid, Items(p.listed)).drop
  }

  // ---- steps ---------------------------------------------------------------

  /** A chunk is not stored again while its file waits to be unlinked. The
      shipped `gc` runs in a process that holds the store alone, and
      `UnlinkKeepsStoreIff` (module StoreSafety) shows the guard is needed.
      A snapshot's references fit their counters, and
      `PutSnapshotExactIff` (module RefCounts) shows that guard is needed. */
  predicate Enabled(h: Hash, s: State, step: Step) {
    match step
    case Tick(at) => s.now <= at
    case PutBegin(id, data, _) =>
      s.writer.Idle? && id !in s.t.chunks && id !in s.unlinking && |data| <= U64_MAX
    case PutWrite(upTo) =>
      s.writer.Writing? && upTo <= |ObjectFile(h, s.writer.data)|
    case PutRename =>
      && s.writer.Writing? && s.writer.tmp in s.disk
      && s.disk[s.writer.tmp] == ObjectFile(h, s.writer.data)
    case PutCommit => s.writer.Renamed? && s.writer.id !in s.t.chunks && |s.writer.data| <= U64_MAX
    case PutFail(_) => !s.writer.Idle?
    case PutSnap(u, blob, refs) =>
      s.writer.Idle? && (PutSnapshot(s.t, u, blob, refs).Ok? ==> CountsFit(RowsOf(s.t), refs))
    case PruneList(p, planAt, _) => p !in s.pruners && planAt <= s.now
    case PruneNext(p) =>
      s.writer.Idle? && p in s.pruners && s.pruners[p].next < |DropsOf(s.pruners[p])|
    case PruneEnd(p) => p in s.pruners && s.pruners[p].next == |DropsOf(s.pruners[p])|
    case Gc(_) => s.writer.Idle?
    case Delete(id) => s.writer.Idle? && ZeroRef(s.t, id)
    case Unlink(id) => id in s.unlinking
    case Crash => true
    case Sweep(file) => s.writer.Idle? && IsTmp(file)
  }

  function DoPutBegin(s: State, id: ChunkId, data: Bytes, unique: string): State {
    var tmp := TmpPath(id, unique);
    s.(writer := Writing(id, data, tmp), disk := s.disk[tmp := []])
  }

  function DoPutWrite(h: Hash, s: State, upTo: nat): State
    requires s.writer.Writing? && upTo <= |ObjectFile(h, s.writer.data)|
  {
    s.(disk := s.disk[s.writer.tmp := ObjectFile(h, s.writer.data)[..upTo]])
  }

  /** `rename` replaces whatever the object path held. */
  function DoPutRename(s: State): State
    requires s.writer.Writing? && s.writer.tmp in s.disk
  {
    var w := s.writer;
    s.(writer := Renamed(w.id, w.data),
       disk := (s.disk - {w.tmp})[ObjectPath(w.id) := s.disk[w.tmp]])
  }

  function DoPutCommit(s: State): State
    requires s.writer.Renamed? && s.writer.id !in s.t.chunks && |s.writer.data| <= U64_MAX
  {
    var w := s.writer;
    s.(writer := Idle,
       t := PutChunkTables(s.t, w.id, |w.data|),
       past := s.past.(blobs := s.past.blobs[w.id := w.data], storedAt := s.past.storedAt[w.id := s.now]))
  }

  /** An error before the commit: the transaction is dropped, and the
      temporary file, if there still is one, may or may not be removed. */
  function DoPutFail(s: State, cleaned: bool): State
    requires !s.writer.Idle?
  {
    s.(writer := Idle, disk := if cleaned && s.writer.Writing? then s.disk - {s.writer.tmp} else s.disk)
  }

  function DoPutSnap(s: State, u: Ulid, blob: Bytes, refs: seq<ChunkId>): State {
    match PutSnapshot(s.t, u, blob, refs)
    case Ok(t) => s.(t := t, past := s.past.(ever := s.past.ever + {u}))
    case Err(_) => s
  }

  function DoPruneList(s: State, p: nat, planAt: i64, grid: R.Grid): State {
    s.(pruners := s.pruners[p := Pruner(planAt, grid, Ascending(s.t.snapshots.Keys), 0)])
  }

  /** A drop that is already gone counts as pruned. */
  function DoPruneNext(s: State, p: nat): State
    requires p in s.pruners && s.pruners[p].next < |DropsOf(s.pruners[p])|
  {
    var pruner := s.pruners[p];
    var s' := s.(pruners := s.pruners[p := pruner.(next := pruner.next + 1)]);
    match DeleteSnapshot(s.t, DropsOf(pruner)[pruner.next])
    case Ok(t) => s'.(t := t)
    case Err(_) => s'
  }

  /** The index transaction of `gc`; the files go later, one `Unlink` each. */
  function DoGc(s: State, grace: nat): State {
    var gone := Reclaimed(s.t, s.now, grace);
    s.(t := GcTables(s.t, s.now, grace),
       unlinking := s.unlinking + gone,
       past := s.past.(blobs := s.past.blobs - gone, storedAt := s.past.storedAt - gone,
                       gcRuns := s.past.gcRuns + [GcRun(s.now, set id | id in s.t.chunks && ZeroRef(s.t, id))]))
  }

  function DoDelete(s: State, id: ChunkId): State
    requires ZeroRef(s.t, id)
  {
    s.(t := DeleteChunk(s.t, id).value, unlinking := s.unlinking + {id},
       past := s.past.(blobs := s.past.blobs - {id}, storedAt := s.past.storedAt - {id}))
  }

  function DoUnlink(s: State, id: ChunkId): State {
    s.(disk := s.disk - {ObjectPath(id)}, unlinking := s.unlinking - {id})
  }

  /** Committed tables and files survive; everything in memory is lost. */
  function DoCrash(s: State): State {
    s.(writer := Idle, unlinking := {}, pruners := map[])
  }

  function Apply(h: Hash, s: State, step: Step): State
    requires Enabled(h, s, step)
  {
    match step
    case Tick(at) => s.(now := at)
    case PutBegin(id, data, unique) => DoPutBegin(s, id, data, unique)
    case PutWrite(upTo) => DoPutWrite(h, s, upTo)
    case PutRename => DoPutRename(s)
    case PutCommit => DoPutCommit(s)
    case PutFail(cleaned) => DoPutFail(s, cleaned)
    case PutSnap(u, blob, refs) => DoPutSnap(s, u, blob, refs)
    case PruneList(p, planAt, grid) => DoPruneList(s, p, planAt, grid)
    case PruneNext(p) => DoPruneNext(s, p)
    case PruneEnd(p) => s.(pruners := s.pruners - {p})
    case Gc(grace) => DoGc(s, grace)
    case Delete(id) => DoDelete(s, id)
    case Unlink(id) => DoUnlink(s, id)
    case Crash => DoCrash(s)
    case Sweep(file) => s.(disk := s.disk - {file})
  }

  // ---- runs ------------------------------------------------------------------

  type Run = seq<Step>

  /** `run` can be taken from the empty store, each step enabled in its turn. */
  ghost predicate Legal(h: Hash, run: Run)
    decreases |run|, 0
  {
    run == [] || (var k := |run| - 1; Legal(h, run[..k]) && Enabled(h, After(h, run[..k]), run[k]))
  }

  ghost function After(h: Hash, run: Run): State
    requires Legal(h, run)
    decreases |run|, 1
  {
    if run == [] then Init() else
      var k := |run| - 1;
      Apply(h, After(h, run[..k]), run[k])
  }

  lemma {:induction false} LegalPrefix(h: Hash, run: Run, n: nat)
    requires Legal(h, run) && n <= |run|
    ensures Legal(h, run[..n])
    ensures n < |run| ==>
              && Enabled(h, After(h, run[..n]), run[n])
              && Legal(h, run[..n + 1]) && After(h, run[..n + 1]) == Apply(h, After(h, run[..n]), run[n])
  {
    if n == |run| {
      assert run[..n] == run;
    } else {
      var k := |run| - 1;
      LegalPrefix(h, run[..k], if n < k then n else k);
      assert n < k ==> run[..k][..n] == run[..n] && run[..k][..n + 1] == run[..n + 1];
      assert n == k ==> run[..n + 1] == run;
      assert run[..k][..k] == run[..k];
    }
  }
}
