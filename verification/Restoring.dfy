/** Restore from one state of the store, and the law the system is for: a
    listed snapshot gives back exactly the files that were backed up. */
module Restoring {
  import opened Bytes
  import opened Wrappers
  import opened ChunkIds
  import opened Tables
  import opened Machine
  import opened StoreSafety
  import opened Protocol
  import P = Primitives
  import M = Manifest
  import MC = ManifestCodec

  datatype RestoredFile = RestoredFile(data: Bytes, mtimeSecs: i64, mtimeNanos: u32, mode: u32)

  type Tree = map<Bytes, RestoredFile>

  /** The tree that was walked. */
  function TreeOf(source: Source): Tree {
    if source == [] then map[] else
      var f := source[|source| - 1];
      TreeOf(source[..|source| - 1])[f.path := RestoredFile(f.data, f.mtimeSecs, f.mtimeNanos, f.mode)]
  }

  /** It has each file at its path and nothing else. */
  lemma {:induction false} TreeOfIsTheSource(source: Source)
    requires forall i, j | 0 <= i < j < |source| :: source[i].path != source[j].path
    ensures forall path :: path in TreeOf(source) <==> exists i :: 0 <= i < |source| && source[i].path == path
    ensures forall i | 0 <= i < |source| ::
              TreeOf(source)[source[i].path]
              == RestoredFile(source[i].data, source[i].mtimeSecs, source[i].mtimeNanos, source[i].mode)
  {
    if source != [] {
      TreeOfIsTheSource(source[..|source| - 1]);
    }
  }

  /** Each chunk in order, read, decrypted, decoded, checked, appended. */
  function ReadChunks(h: Hash, p: P.Primitives, key: P.Key, idKey: P.Key, s: State, ids: seq<ChunkId>)
    : Result<Bytes, RestoreError>
  {
    if ids == [] then Ok([]) else
      var k := |ids| - 1;
      var data :- ReadChunks(h, p, key, idKey, s, ids[..k]);
      match GetChunk(h, s.t, s.disk, ids[k])
      case Err(e) => Err(Store(e))
      case Ok(blob) =>
        var text :- Fetch(p, key, idKey, ids[k], blob);
        Ok(data + text)
  }

  function RestoreFile(h: Hash, p: P.Primitives, key: P.Key, idKey: P.Key, s: State, f: M.FileEntry)
    : Result<RestoredFile, RestoreError>
  {
    if !SafePath(f.path) then Err(UnsafePath(f.path)) else
      var data :- ReadChunks(h, p, key, idKey, s, f.chunks);
      if |data| != f.size then Err(SizeMismatch(f.path, f.size, |data|))
      else Ok(RestoredFile(data, f.mtimeSecs, f.mtimeNanos, f.mode))
  }

  function RestoreFiles(h: Hash, p: P.Primitives, key: P.Key, idKey: P.Key, s: State, files: seq<M.FileEntry>)
    : Result<Tree, RestoreError>
  {
    if files == [] then Ok(map[]) else
      var k := |files| - 1;
      var tree :- RestoreFiles(h, p, key, idKey, s, files[..k]);
      var file :- RestoreFile(h, p, key, idKey, s, files[k]);
      Ok(tree[files[k].path := file])
  }

  /** `run_restore` into an empty directory, the store standing still. */
  function RestoreFrom(h: Hash, p: P.Primitives, key: P.Key, idKey: P.Key, s: State, u: Ulid)
    : Result<Tree, RestoreError>
  {
    if u !in s.t.snapshots then Err(Store(SnapshotNotFound(u))) else
      match P.Open(p, key, M.UlidBytes(u), s.t.snapshots[u])
      case Err(e) => Err(Crypto(e))
      case Ok(encoded) =>
        match M.Decode(encoded)
        case Err(e) => Err(BadManifest(e))
        case Ok(m) => RestoreFiles(h, p, key, idKey, s, m.files)
  }

  // ---- exactness ------------------------------------------------------------

  lemma {:induction false} ChunkIsReferenced(files: seq<M.FileEntry>, i: nat, id: ChunkId)
    requires i < |files| && id in files[i].chunks
    ensures id in M.ChunkRefs(files)
  {
    if i > 0 {
      ChunkIsReferenced(files[1..], i - 1, id);
    }
  }

  ghost predicate AllIn(ids: seq<ChunkId>, refs: seq<ChunkId>) {
    forall i | 0 <= i < |ids| :: ids[i] in refs
  }

  ghost predicate AllChunks(c: BackupSet, ids: seq<ChunkId>, texts: seq<Bytes>) {
    |ids| == |texts| && forall i | 0 <= i < |ids| :: IsChunk(c, ids[i], texts[i])
  }

  lemma {:induction false} ChunksReadBack(h: Hash, c: BackupSet, run: Run, u: Ulid, ids: seq<ChunkId>, texts: seq<Bytes>)
    requires Legal(h, run) && HonestRun(c, run) && u in After(h, run).t.snapshotRefs
    requires AllChunks(c, ids, texts) && AllIn(ids, SplitRefs(After(h, run).t.snapshotRefs[u]))
    ensures ReadChunks(h, c.p, c.key, c.idKey, After(h, run), ids) == Ok(Concat(texts))
    decreases |ids|
  {
    if ids != [] {
      var k := |ids| - 1;
      ChunksReadBack(h, c, run, u, ids[..k], texts[..k]);
      ReferencedChunkIsFetched(h, c, run, u, ids[k], texts[k]);
      ConcatSnoc(texts[..k], texts[k]);
      assert texts == texts[..k] + [texts[k]];
    }
  }

  lemma FileReadsBack(h: Hash, c: BackupSet, run: Run, u: Ulid, f: SourceFile)
    requires Legal(h, run) && HonestRun(c, run) && Sound(c) && u in After(h, run).t.snapshotRefs
    requires |f.data| <= U64_MAX && SafePath(f.path) && forall t | t in c.p.cdc(f.data) :: t in c.corpus
    requires AllIn(EntryOf(c.p, c.idKey, f).chunks, SplitRefs(After(h, run).t.snapshotRefs[u]))
    ensures RestoreFile(h, c.p, c.key, c.idKey, After(h, run), EntryOf(c.p, c.idKey, f))
         == Ok(RestoredFile(f.data, f.mtimeSecs, f.mtimeNanos, f.mode))
  {
    ChunksReadBack(h, c, run, u, EntryOf(c.p, c.idKey, f).chunks, c.p.cdc(f.data));
    assert Concat(c.p.cdc(f.data)) == f.data;
  }

  lemma RestoreFilesStep(h: Hash, p: P.Primitives, key: P.Key, idKey: P.Key, s: State, files: seq<M.FileEntry>,
                         tree: Tree, file: RestoredFile)
    requires files != []
    requires RestoreFiles(h, p, key, idKey, s, files[..|files| - 1]) == Ok(tree)
    requires RestoreFile(h, p, key, idKey, s, files[|files| - 1]) == Ok(file)
    ensures RestoreFiles(h, p, key, idKey, s, files) == Ok(tree[files[|files| - 1].path := file])
  {}

  lemma {:induction false} FilesReadBack(h: Hash, c: BackupSet, run: Run, u: Ulid, source: Source)
    requires Legal(h, run) && HonestRun(c, run) && Sound(c) && u in After(h, run).t.snapshotRefs
    requires Walked(c, source)
    requires forall i | 0 <= i < |source| ::
               AllIn(EntryOf(c.p, c.idKey, source[i]).chunks, SplitRefs(After(h, run).t.snapshotRefs[u]))
    ensures RestoreFiles(h, c.p, c.key, c.idKey, After(h, run), EntriesOf(c.p, c.idKey, source)) == Ok(TreeOf(source))
  {
    if source != [] {
      var k := |source| - 1;
      FilesReadBack(h, c, run, u, source[..k]);
      assert EntriesOf(c.p, c.idKey, source)[..k] == EntriesOf(c.p, c.idKey, source[..k]);
      FileReadsBack(h, c, run, u, source[k]);
      var f := source[k];
      RestoreFilesStep(h, c.p, c.key, c.idKey, After(h, run), EntriesOf(c.p, c.idKey, source), TreeOf(source[..k]),
                       RestoredFile(f.data, f.mtimeSecs, f.mtimeNanos, f.mode));
    }
  }

  lemma EntriesAreReferenced(c: BackupSet, source: Source)
    requires Sizes(source)
    ensures forall i | 0 <= i < |source| ::
              AllIn(EntryOf(c.p, c.idKey, source[i]).chunks, M.ChunkRefs(EntriesOf(c.p, c.idKey, source)))
  {
    forall i, j | 0 <= i < |source| && 0 <= j < |EntryOf(c.p, c.idKey, source[i]).chunks|
      ensures EntryOf(c.p, c.idKey, source[i]).chunks[j] in M.ChunkRefs(EntriesOf(c.p, c.idKey, source))
    {
      ChunkIsReferenced(EntriesOf(c.p, c.idKey, source), i, EntryOf(c.p, c.idKey, source[i]).chunks[j]);
    }
  }

  /** In any reachable state that holds this backup of `source`, restore
      returns exactly the source tree. */
  lemma StoredSnapshotRestores(h: Hash, c: BackupSet, run: Run, u: Ulid, created: i64, source: Source)
    requires Legal(h, run) && HonestRun(c, run) && Sound(c) && Walked(c, source)
    requires Stores(c, After(h, run).t, u, created, source)
    ensures RestoreFrom(h, c.p, c.key, c.idKey, After(h, run), u) == Ok(TreeOf(source))
  {
    var m := M.Manifest(u, created, EntriesOf(c.p, c.idKey, source));
    MC.RoundTrip(m);
    SplitJoin(M.ChunkRefs(m.files));
    EntriesAreReferenced(c, source);
    FilesReadBack(h, c, run, u, source);
  }

  /** Once a backup is stored, in every later state reached with the snapshot
      still listed (whatever other backups, prunes, gcs and crashes came in
      between) restore returns exactly the files backed up. */
  lemma ListedSnapshotRestores(h: Hash, c: BackupSet, run: Run, from: nat, u: Ulid, created: i64, source: Source)
    requires Legal(h, run) && HonestRun(c, run) && Sound(c) && Walked(c, source)
    requires from <= |run| && ListedThroughout(h, run, from, u)
    requires Legal(h, run[..from]) && Stores(c, After(h, run[..from]).t, u, created, source)
    ensures RestoreFrom(h, c.p, c.key, c.idKey, After(h, run), u) == Ok(TreeOf(source))
  {
    ListedKeepsStored(h, run, from, u);
    StoredSnapshotRestores(h, c, run, u, created, source);
  }
}
