/** Backups and restores against the store: what a client ships and records,
    and why every listed snapshot gives its files back. */
module Protocol {
  import opened Bytes
  import opened Wrappers
  import opened ChunkIds
  import opened Tables
  import opened Machine
  import opened StoreSafety
  import P = Primitives
  import Z = Compression
  import M = Manifest
  import Utf8

  /** One backup set: its keys, the primitives it runs on, and every chunk of
      plaintext it ever backs up. */
  datatype BackupSet = BackupSet(p: P.Primitives, key: P.Key, idKey: P.Key, corpus: iset<Bytes>)

  ghost predicate Sound(c: BackupSet) {
    P.Lawful(c.p) && P.CollisionFree(c.p, c.idKey, c.corpus)
  }

  datatype SourceFile = SourceFile(path: Bytes, data: Bytes, mtimeSecs: i64, mtimeNanos: u32, mode: u32)

  type Source = seq<SourceFile>

  datatype RestoreError =
    | TargetNotEmpty
    | Store(e: StoreError)
    | Unreachable
    | BadResponse
    | BadManifest(m: M.ManifestError)
    | Crypto(c: P.CryptoError)
    | CodecDecode(chunk: ChunkId, z: Z.CompressionError)
    | ChunkIdMismatch(chunk: ChunkId, actual: ChunkId)
    | SizeMismatch(path: Bytes, expected: nat, got: nat)
    | UnsafePath(unsafe: Bytes)

  // ---- chunks ------------------------------------------------------------

  /** What restore makes of a stored blob: decrypt under the identity, decode,
      and check the plaintext against the identity. */
  function Fetch(p: P.Primitives, key: P.Key, idKey: P.Key, id: ChunkId, blob: Bytes): Result<Bytes, RestoreError> {
    match P.Open(p, key, id, blob)
    case Err(e) => Err(Crypto(e))
    case Ok(framed) =>
      match Z.DecodeChunk(p, framed)
      case Err(e) => Err(CodecDecode(id, e))
      case Ok(text) =>
        if p.keyed(idKey, text) == id then Ok(text) else Err(ChunkIdMismatch(id, p.keyed(idKey, text)))
  }

  /** The blob a backup ships for a chunk. */
  function Ship(p: P.Primitives, key: P.Key, id: ChunkId, text: Bytes, phase: Z.Phase, cfg: Z.PolicyConfig, nonce: P.Nonce)
    : Result<Bytes, P.CryptoError>
  {
    var choice := Z.Choose(p, text, phase, cfg);
    P.Seal(p, key, id, Z.Frame(choice.Codec(), choice.Payload()), nonce)
  }

  /** Whatever the policy, phase and nonce, what is shipped for a chunk is
      fetched back as the chunk, and its size is the payload's plus 41. */
  lemma ShippedIsFetched(c: BackupSet, text: Bytes, phase: Z.Phase, cfg: Z.PolicyConfig, nonce: P.Nonce)
    requires P.Lawful(c.p)
    ensures var id := c.p.keyed(c.idKey, text);
            var r := Ship(c.p, c.key, id, text, phase, cfg, nonce);
            r.Ok? ==>
              && Fetch(c.p, c.key, c.idKey, id, r.value) == Ok(text)
              && |r.value| == |Z.Choose(c.p, text, phase, cfg).Payload()| + 1 + P.BLOB_OVERHEAD
  {
    var id := c.p.keyed(c.idKey, text);
    var choice := Z.Choose(c.p, text, phase, cfg);
    P.SealThenOpen(c.p, c.key, id, Z.Frame(choice.Codec(), choice.Payload()), nonce);
    Z.DecodeWhatWasChosen(c.p, text, phase, cfg);
  }

  ghost predicate IsChunk(c: BackupSet, id: ChunkId, text: Bytes) {
    text in c.corpus && c.p.keyed(c.idKey, text) == id
  }

  /** Under an identity of this backup set only a blob of that chunk is ever
      uploaded; other sets and other clients upload what they like elsewhere. */
  ghost predicate Honest(c: BackupSet, id: ChunkId, blob: Bytes) {
    forall text {:trigger IsChunk(c, id, text)} :: IsChunk(c, id, text) ==> Fetch(c.p, c.key, c.idKey, id, blob) == Ok(text)
  }

  ghost predicate HonestRun(c: BackupSet, run: Run) {
    forall i | 0 <= i < |run| && run[i].PutBegin? :: Honest(c, run[i].id, run[i].data)
  }

  ghost predicate HonestState(c: BackupSet, s: State) {
    && (forall id | id in s.past.blobs :: Honest(c, id, s.past.blobs[id]))
    && (!s.writer.Idle? ==> Honest(c, s.writer.id, s.writer.data))
  }

  lemma StepKeepsHonest(h: Hash, c: BackupSet, s: State, step: Step)
    requires HonestState(c, s) && Enabled(h, s, step) && (step.PutBegin? ==> Honest(c, step.id, step.data))
    ensures HonestState(c, Apply(h, s, step))
  {}

  lemma {:induction false} RunKeepsHonest(h: Hash, c: BackupSet, run: Run)
    requires Legal(h, run) && HonestRun(c, run)
    ensures HonestState(c, After(h, run))
  {
    if run != [] {
      var k := |run| - 1;
      RunKeepsHonest(h, c, run[..k]);
      StepKeepsHonest(h, c, After(h, run[..k]), run[k]);
    }
  }

  // ---- snapshots -----------------------------------------------------------

  function IdsOf(p: P.Primitives, idKey: P.Key, texts: seq<Bytes>): (ids: seq<ChunkId>)
    ensures |ids| == |texts|
  {
    seq<ChunkId>(|texts|, i requires 0 <= i < |texts| => p.keyed(idKey, texts[i]))
  }

  function EntryOf(p: P.Primitives, idKey: P.Key, f: SourceFile): M.FileEntry
    requires |f.data| <= U64_MAX
  {
    M.FileEntry(f.path, |f.data|, f.mtimeSecs, f.mtimeNanos, f.mode, IdsOf(p, idKey, p.cdc(f.data)))
  }

  predicate Sizes(source: Source) {
    forall i | 0 <= i < |source| :: |source[i].data| <= U64_MAX
  }

  function EntriesOf(p: P.Primitives, idKey: P.Key, source: Source): (entries: seq<M.FileEntry>)
    requires Sizes(source)
    ensures |entries| == |source|
  {
    seq(|source|, i requires 0 <= i < |source| => EntryOf(p, idKey, source[i]))
  }

  /** The parts of a path between slashes. */
  function Parts(path: Bytes): (parts: seq<Bytes>)
    ensures parts != []
  {
    if path == [] then [[]]
    else
      var rest := Parts(path[1..]);
      if path[0] == 0x2F then [[]] + rest else [[path[0]] + rest[0]] + rest[1..]
  }

  /** Relative, with no empty, `.` or `..` part. */
  predicate SafePath(path: Bytes) {
    forall part | part in Parts(path) :: part != [] && part != [0x2E] && part != [0x2E, 0x2E]
  }

  /** What walking the configured folders can find: text paths, all safe and
      distinct, chunks that belong to the set. */
  ghost predicate Walked(c: BackupSet, source: Source) {
    && Sizes(source)
    && (forall i | 0 <= i < |source| :: SafePath(source[i].path) && Utf8.IsUtf8(source[i].path))
    && (forall i, j | 0 <= i < j < |source| :: source[i].path != source[j].path)
    && (forall i, t | 0 <= i < |source| && t in c.p.cdc(source[i].data) :: t in c.corpus)
  }

  /** The snapshot `u` stored in `t` is this backup of `source`: its blob
      seals the manifest, its references are the manifest's. */
  ghost predicate Stores(c: BackupSet, t: Tables, u: Ulid, created: i64, source: Source)
    requires Sizes(source)
  {
    Holds(c, t, M.Manifest(u, created, EntriesOf(c.p, c.idKey, source)))
  }

  ghost predicate Holds(c: BackupSet, t: Tables, m: M.Manifest) {
    var u := m.snapshotId;
    && u in t.snapshots && u in t.snapshotRefs
    && M.Encode(m).Ok?
    && P.Open(c.p, c.key, M.UlidBytes(u), t.snapshots[u]) == Ok(M.Encode(m).value)
    && t.snapshotRefs[u] == JoinRefs(M.ChunkRefs(m.files))
  }

  ghost predicate SameSnapshot(t: Tables, t': Tables, u: Ulid) {
    && u in t.snapshots && u in t'.snapshots && t'.snapshots[u] == t.snapshots[u]
    && u in t.snapshotRefs && u in t'.snapshotRefs && t'.snapshotRefs[u] == t.snapshotRefs[u]
  }

  /** As long as a snapshot stays listed, no step changes what is stored for
      it. */
  lemma StepKeepsListed(h: Hash, s: State, step: Step, u: Ulid)
    requires s.t.snapshots.Keys == s.t.snapshotRefs.Keys
    requires Enabled(h, s, step) && u in s.t.snapshots && u in Apply(h, s, step).t.snapshots
    ensures SameSnapshot(s.t, Apply(h, s, step).t, u)
  {
    if step.PutSnap? {
      assert SameSnapshot(s.t, DoPutSnap(s, step.u, step.blob, step.refs).t, u);
    } else if step.PruneNext? {
      assert SameSnapshot(s.t, DoPruneNext(s, step.p).t, u);
    }
  }

  ghost predicate ListedAt(h: Hash, run: Run, n: nat, u: Ulid) {
    n <= |run| && Legal(h, run[..n]) && u in After(h, run[..n]).t.snapshots
  }

  ghost predicate ListedThroughout(h: Hash, run: Run, from: nat, u: Ulid) {
    forall n | from <= n <= |run| :: ListedAt(h, run, n, u)
  }

  lemma {:induction false} ListedKeepsStored(h: Hash, run: Run, from: nat, u: Ulid)
    requires Legal(h, run) && from <= |run| && ListedThroughout(h, run, from, u)
    ensures Legal(h, run[..from]) && SameSnapshot(After(h, run[..from]).t, After(h, run).t, u)
  {
    assert ListedAt(h, run, |run|, u) && ListedAt(h, run, from, u);
    assert run[..|run|] == run;
    RunKeepsInv(h, run);
    if from < |run| {
      var k := |run| - 1;
      ListedOnPrefix(h, run, from, k, u);
      ListedKeepsStored(h, run[..k], from, u);
      assert run[..k][..from] == run[..from];
      RunKeepsInv(h, run[..k]);
      StepKeepsListed(h, After(h, run[..k]), run[k], u);
    }
  }

  lemma ListedOnPrefix(h: Hash, run: Run, from: nat, k: nat, u: Ulid)
    requires from <= k <= |run| && ListedThroughout(h, run, from, u)
    ensures ListedThroughout(h, run[..k], from, u)
    ensures Legal(h, run[..k]) && u in After(h, run[..k]).t.snapshots
  {
    assert ListedAt(h, run, k, u);
    forall n | from <= n <= k
      ensures ListedAt(h, run[..k], n, u)
    {
      assert ListedAt(h, run, n, u);
      assert run[..k][..n] == run[..n];
    }
  }

  // ---- reads -----------------------------------------------------------------

  /** In any reachable state, a chunk of this set that a listed snapshot
      references is read, decrypted and decoded to exactly its text. */
  lemma ReferencedChunkIsFetched(h: Hash, c: BackupSet, run: Run, u: Ulid, id: ChunkId, text: Bytes)
    requires Legal(h, run) && HonestRun(c, run) && IsChunk(c, id, text)
    requires var t := After(h, run).t; u in t.snapshotRefs && id in SplitRefs(t.snapshotRefs[u])
    ensures var s := After(h, run);
            && GetChunk(h, s.t, s.disk, id).Ok?
            && Fetch(c.p, c.key, c.idKey, id, GetChunk(h, s.t, s.disk, id).value) == Ok(text)
  {
    var s := After(h, run);
    RunKeepsInv(h, run);
    RunKeepsHonest(h, c, run);
    ReadsAreExact(h, run, id);
    assert id in RowsOf(s.t)[u];
    assert Referenced(RowsOf(s.t), id);
  }

  /** Whatever the state, a read that succeeds under an identity of this set
      yields that chunk's text or fails: never other bytes. */
  lemma FetchedIsTheChunk(h: Hash, c: BackupSet, run: Run, id: ChunkId, text: Bytes)
    requires Legal(h, run) && HonestRun(c, run) && IsChunk(c, id, text)
    ensures var s := After(h, run);
            GetChunk(h, s.t, s.disk, id).Ok? ==>
              Fetch(c.p, c.key, c.idKey, id, GetChunk(h, s.t, s.disk, id).value) == Ok(text)
  {
    RunKeepsHonest(h, c, run);
    ReadsAreExact(h, run, id);
  }
}
