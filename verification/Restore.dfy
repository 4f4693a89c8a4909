/** One restore run against a daemon that others keep using: the manifest,
    then file by file and chunk by chunk, each read finding the store as the
    others left it. */
module Restore {
  import opened Bytes
  import opened Wrappers
  import opened ChunkIds
  import opened Tables
  import opened Machine
  import opened StoreSafety
  import opened Protocol
  import opened Restoring
  import B = Backup
  import D = Daemon
  import P = Primitives
  import M = Manifest
  import MC = ManifestCodec

  datatype Report = Report(files: nat, bytes: nat, chunksFetched: nat)

  // ---- what a restore that succeeds has checked ----------------------------

  ghost predicate Verified(p: P.Primitives, idKey: P.Key, ids: seq<ChunkId>, texts: seq<Bytes>) {
    |texts| == |ids| && forall i | 0 <= i < |ids| :: p.keyed(idKey, texts[i]) == ids[i]
  }

  /** Safe path, every chunk matching its identity, and the recorded size. */
  ghost predicate FileVerified(p: P.Primitives, idKey: P.Key, f: M.FileEntry, texts: seq<Bytes>) {
    SafePath(f.path) && Verified(p, idKey, f.chunks, texts) && |Concat(texts)| == f.size
  }

  /** Files written one after the other, a later one replacing an earlier one
      of the same path. */
  ghost function Written(files: seq<M.FileEntry>, texts: seq<seq<Bytes>>): Tree
    requires |texts| == |files|
  {
    if files == [] then map[] else
      var k := |files| - 1;
      var f := files[k];
      Written(files[..k], texts[..k])[f.path := RestoredFile(Concat(texts[k]), f.mtimeSecs, f.mtimeNanos, f.mode)]
  }

  function SizesOf(files: seq<M.FileEntry>): nat {
    if files == [] then 0 else SizesOf(files[..|files| - 1]) + files[|files| - 1].size
  }

  /** The first `|texts|` files are restored, and the report counts them. */
  ghost predicate Progress(p: P.Primitives, idKey: P.Key, files: seq<M.FileEntry>, texts: seq<seq<Bytes>>,
                           target: Tree, report: Report)
  {
    && |texts| <= |files|
    && (forall k | 0 <= k < |texts| :: FileVerified(p, idKey, files[k], texts[k]))
    && target == Written(files[..|texts|], texts)
    && report == Report(|texts|, SizesOf(files[..|texts|]), |M.ChunkRefs(files[..|texts|])|)
  }

  lemma ProgressStep(p: P.Primitives, idKey: P.Key, files: seq<M.FileEntry>, texts: seq<seq<Bytes>>,
                     target: Tree, report: Report, last: seq<Bytes>)
    requires Progress(p, idKey, files, texts, target, report) && |texts| < |files|
    requires FileVerified(p, idKey, files[|texts|], last)
    ensures var f := files[|texts|];
            Progress(p, idKey, files, texts + [last],
                     target[f.path := RestoredFile(Concat(last), f.mtimeSecs, f.mtimeNanos, f.mode)],
                     Report(report.files + 1, report.bytes + f.size, report.chunksFetched + |f.chunks|))
  {
    var i := |texts|;
    var done := files[..i + 1];
    assert done[..i] == files[..i] && done == files[..i] + [files[i]];
    assert (texts + [last])[..i] == texts;
    MC.ChunkRefsSnoc(files[..i], files[i]);
  }

  // ---- what makes a restore succeed -----------------------------------------

  /** When the run was `from` steps long, snapshot `u` referenced all `ids`. */
  ghost predicate Refers(h: Hash, run: Run, from: nat, u: Ulid, ids: seq<ChunkId>) {
    && from <= |run| && Legal(h, run[..from])
    && u in After(h, run[..from]).t.snapshotRefs
    && AllIn(ids, SplitRefs(After(h, run[..from]).t.snapshotRefs[u]))
  }

  lemma RefersLater(h: Hash, run: Run, run': Run, from: nat, u: Ulid, ids: seq<ChunkId>)
    requires run <= run' && Refers(h, run, from, u, ids)
    ensures Refers(h, run', from, u, ids)
  {
    assert run'[..from] == run[..from];
  }

  ghost predicate RefersAll(h: Hash, run: Run, from: nat, u: Ulid, files: seq<M.FileEntry>) {
    forall i | 0 <= i < |files| :: Refers(h, run, from, u, files[i].chunks)
  }

  lemma RefersAllLater(h: Hash, run: Run, run': Run, from: nat, u: Ulid, files: seq<M.FileEntry>)
    requires run <= run'
    ensures RefersAll(h, run, from, u, files) ==> RefersAll(h, run', from, u, files)
  {
    forall i | 0 <= i < |files| && Refers(h, run, from, u, files[i].chunks)
      ensures Refers(h, run', from, u, files[i].chunks)
    {
      RefersLater(h, run, run', from, u, files[i].chunks);
    }
  }

  /** While the snapshot has stayed listed, its chunks are readable. */
  lemma StillReadable(h: Hash, c: BackupSet, run0: Run, run: Run, from: nat, u: Ulid,
                      ids: seq<ChunkId>, texts: seq<Bytes>, i: nat)
    requires Legal(h, run) && HonestRun(c, run) && run0 <= run && i < |ids|
    ensures var s := After(h, run);
            AllChunks(c, ids, texts) && Refers(h, run0, from, u, ids) && ListedThroughout(h, run, from, u) ==>
              GetChunk(h, s.t, s.disk, ids[i]).Ok?
  {
    if AllChunks(c, ids, texts) && Refers(h, run0, from, u, ids) && ListedThroughout(h, run, from, u) {
      RefersLater(h, run0, run, from, u, ids);
      ListedKeepsStored(h, run, from, u);
      ReferencedChunkIsFetched(h, c, run, u, ids[i], texts[i]);
    }
  }

  /** The snapshot is listed, and its blob opens and decodes to `m`. */
  ghost predicate DecodesTo(p: P.Primitives, key: P.Key, t: Tables, u: Ulid, m: M.Manifest) {
    && u in t.snapshots
    && P.Open(p, key, M.UlidBytes(u), t.snapshots[u]).Ok?
    && M.Decode(P.Open(p, key, M.UlidBytes(u), t.snapshots[u]).value) == Ok(m)
  }

  ghost predicate ManifestAt(h: Hash, p: P.Primitives, key: P.Key, run: Run, at: nat, u: Ulid, m: M.Manifest) {
    at <= |run| && Legal(h, run[..at]) && DecodesTo(p, key, After(h, run[..at]).t, u, m)
  }

  /** The backup of `source` was stored when the run was `from` steps long. */
  ghost predicate StoredBackup(h: Hash, c: BackupSet, run: Run, from: nat, u: Ulid, created: i64, source: Source)
    requires Sizes(source)
  {
    from <= |run| && Legal(h, run[..from]) && Stores(c, After(h, run[..from]).t, u, created, source)
  }

  lemma StoredBackupLater(h: Hash, c: BackupSet, run: Run, run': Run, from: nat, u: Ulid, created: i64, source: Source)
    requires run <= run' && Sizes(source) && StoredBackup(h, c, run, from, u, created, source)
    ensures StoredBackup(h, c, run', from, u, created, source)
  {
    assert run'[..from] == run[..from];
  }

  lemma ManifestLater(h: Hash, p: P.Primitives, key: P.Key, run: Run, run': Run, u: Ulid, m: M.Manifest)
    requires run <= run' && ManifestAt(h, p, key, run, |run|, u, m)
    ensures run'[..|run|] == run && ManifestAt(h, p, key, run', |run|, u, m)
  {
    assert run'[..|run|] == run && run[..|run|] == run;
  }

  /** The manifest read from a stored backup that has stayed listed is the one
      that was recorded. */
  lemma ReadsTheManifest(h: Hash, c: BackupSet, run: Run, from: nat, u: Ulid, created: i64, source: Source)
    requires Sound(c) && Walked(c, source) && Legal(h, run) && ListedThroughout(h, run, from, u)
    requires StoredBackup(h, c, run, from, u, created, source)
    ensures ManifestAt(h, c.p, c.key, run, |run|, u, M.Manifest(u, created, EntriesOf(c.p, c.idKey, source)))
  {
    ListedKeepsStored(h, run, from, u);
    StoredDecodes(c, After(h, run[..from]).t, After(h, run).t, u, created, source);
    assert run[..|run|] == run;
  }

  lemma StoredDecodes(c: BackupSet, t: Tables, t': Tables, u: Ulid, created: i64, source: Source)
    requires Walked(c, source) && Stores(c, t, u, created, source) && SameSnapshot(t, t', u)
    ensures DecodesTo(c.p, c.key, t', u, M.Manifest(u, created, EntriesOf(c.p, c.idKey, source)))
  {
    BlobDecodes(c, t, t', M.Manifest(u, created, EntriesOf(c.p, c.idKey, source)));
  }

  lemma BlobDecodes(c: BackupSet, t: Tables, t': Tables, m: M.Manifest)
    requires Holds(c, t, m) && SameSnapshot(t, t', m.snapshotId) && M.PathsAreText(m)
    ensures DecodesTo(c.p, c.key, t', m.snapshotId, m)
  {
    MC.RoundTrip(m);
  }

  /** The backup of `source` was in `run0`, and has stayed listed to the end
      of `run`. */
  ghost predicate StoredListed(h: Hash, c: BackupSet, run0: Run, run: Run, from: nat, u: Ulid, created: i64, source: Source)
    requires Sizes(source)
  {
    StoredBackup(h, c, run0, from, u, created, source) && ListedThroughout(h, run, from, u)
  }

  lemma ManifestStays(h: Hash, c: BackupSet, run0: Run, run: Run, from: nat, u: Ulid, created: i64, source: Source)
    requires Sound(c) && Walked(c, source) && Legal(h, run) && run0 <= run
    ensures StoredListed(h, c, run0, run, from, u, created, source) ==>
              ManifestAt(h, c.p, c.key, run, |run|, u, M.Manifest(u, created, EntriesOf(c.p, c.idKey, source)))
  {
    if StoredListed(h, c, run0, run, from, u, created, source) {
      StoredBackupLater(h, c, run0, run, from, u, created, source);
      ReadsTheManifest(h, c, run, from, u, created, source);
    }
  }

  /** Its chunks are the snapshot's references. */
  lemma EntriesRefer(h: Hash, c: BackupSet, run: Run, from: nat, u: Ulid, created: i64, source: Source)
    requires Sizes(source) && StoredBackup(h, c, run, from, u, created, source)
    ensures RefersAll(h, run, from, u, EntriesOf(c.p, c.idKey, source))
  {
    SplitJoin(M.ChunkRefs(EntriesOf(c.p, c.idKey, source)));
    EntriesAreReferenced(c, source);
  }

  /** Each file's path is safe, and its chunks are these texts, of its size. */
  ghost predicate Expecting(c: BackupSet, files: seq<M.FileEntry>, texts: seq<seq<Bytes>>) {
    && |texts| == |files|
    && forall i | 0 <= i < |files| ::
         SafePath(files[i].path) && AllChunks(c, files[i].chunks, texts[i]) && |Concat(texts[i])| == files[i].size
  }

  /** The chunks of each file of the source. */
  function TextsOf(p: P.Primitives, source: Source): (texts: seq<seq<Bytes>>)
    ensures |texts| == |source|
  {
    seq(|source|, i requires 0 <= i < |source| => p.cdc(source[i].data))
  }

  lemma EntriesExpect(c: BackupSet, source: Source)
    requires Sound(c) && Walked(c, source)
    ensures Expecting(c, EntriesOf(c.p, c.idKey, source), TextsOf(c.p, source))
  {}

  lemma ReadEarlier(h: Hash, c: BackupSet, run0: Run, run1: Run, run: Run, from: nat, u: Ulid, created: i64, source: Source)
    requires Sizes(source) && run0 <= run1 <= run
    ensures StoredListed(h, c, run0, run, from, u, created, source) ==>
              && StoredListed(h, c, run0, run1, from, u, created, source)
              && RefersAll(h, run1, from, u, EntriesOf(c.p, c.idKey, source))
  {
    if StoredListed(h, c, run0, run, from, u, created, source) {
      assert run[..|run1|] == run1;
      ListedOnPrefix(h, run, from, |run1|, u);
      StoredBackupLater(h, c, run0, run1, from, u, created, source);
      EntriesRefer(h, c, run1, from, u, created, source);
    }
  }

  lemma {:induction false} WrittenIsTheTree(c: BackupSet, source: Source)
    requires Sound(c) && Sizes(source)
    ensures Written(EntriesOf(c.p, c.idKey, source), TextsOf(c.p, source)) == TreeOf(source)
  {
    if source != [] {
      var k := |source| - 1;
      WrittenIsTheTree(c, source[..k]);
      assert EntriesOf(c.p, c.idKey, source)[..k] == EntriesOf(c.p, c.idKey, source[..k]);
      assert TextsOf(c.p, source)[..k] == TextsOf(c.p, source[..k]);
    }
  }

  lemma RestoredIsTheTree(c: BackupSet, source: Source, target: Tree, report: Report)
    requires Sound(c) && Walked(c, source)
    requires Progress(c.p, c.idKey, EntriesOf(c.p, c.idKey, source), TextsOf(c.p, source), target, report)
    ensures target == TreeOf(source)
  {
    var files := EntriesOf(c.p, c.idKey, source);
    assert files[..|files|] == files;
    WrittenIsTheTree(c, source);
  }

  /** The first `|fetched|` chunks of a file are fetched and checked; they are
      those of `texts`, if all its chunks are and the daemon is trusted. */
  ghost predicate Fetched(p: P.Primitives, idKey: P.Key, c: BackupSet, trusted: bool, ids: seq<ChunkId>, texts: seq<Bytes>,
                          fetched: seq<Bytes>, data: Bytes)
  {
    && |fetched| <= |ids| && Verified(p, idKey, ids[..|fetched|], fetched) && data == Concat(fetched)
    && (trusted && AllChunks(c, ids, texts) ==> fetched == texts[..|fetched|])
  }

  lemma FetchedStep(p: P.Primitives, idKey: P.Key, c: BackupSet, trusted: bool, ids: seq<ChunkId>, texts: seq<Bytes>,
                    fetched: seq<Bytes>, data: Bytes, text: Bytes)
    requires Fetched(p, idKey, c, trusted, ids, texts, fetched, data) && |fetched| < |ids|
    requires p.keyed(idKey, text) == ids[|fetched|]
    requires trusted && |fetched| < |texts| && IsChunk(c, ids[|fetched|], texts[|fetched|]) ==> text == texts[|fetched|]
    ensures Fetched(p, idKey, c, trusted, ids, texts, fetched + [text], data + text)
  {
    ConcatSnoc(fetched, text);
  }

  /** Where identities are collision-free, a checked text of the corpus is the
      only chunk of that identity. */
  lemma VerifiedIsTheChunk(c: BackupSet, id: ChunkId, got: Bytes, text: Bytes)
    requires Sound(c) && got in c.corpus && c.p.keyed(c.idKey, got) == id && IsChunk(c, id, text)
    ensures got == text
  {
    assert P.SameIdentity(c.p, c.idKey, got, text);
  }

  /** What a restore has checked of file contents, the replies being anyone's:
      if they are texts of the corpus, they are the file's own chunks. */
  lemma VerifiedAreTheChunks(c: BackupSet, ids: seq<ChunkId>, fetched: seq<Bytes>, texts: seq<Bytes>)
    requires Sound(c) && Verified(c.p, c.idKey, ids, fetched) && AllChunks(c, ids, texts)
    requires forall t | t in fetched :: t in c.corpus
    ensures fetched == texts
  {
    forall i | 0 <= i < |ids|
      ensures fetched[i] == texts[i]
    {
      VerifiedIsTheChunk(c, ids[i], fetched[i], texts[i]);
    }
  }

  /** A restore of the manifest of `source` by anyone's replies writes the source
      tree, if every text it accepted is one of the corpus. */
  lemma VerifiedIsTheTree(c: BackupSet, source: Source, fetched: seq<seq<Bytes>>, target: Tree, report: Report)
    requires Sound(c) && Walked(c, source) && |fetched| == |source|
    requires Progress(c.p, c.idKey, EntriesOf(c.p, c.idKey, source), fetched, target, report)
    requires forall i | 0 <= i < |fetched| :: forall t | t in fetched[i] :: t in c.corpus
    ensures target == TreeOf(source)
  {
    EntriesExpect(c, source);
    forall i | 0 <= i < |source|
      ensures fetched[i] == TextsOf(c.p, source)[i]
    {
      VerifiedAreTheChunks(c, EntriesOf(c.p, c.idKey, source)[i].chunks, fetched[i], TextsOf(c.p, source)[i]);
    }
    assert fetched == TextsOf(c.p, source);
    RestoredIsTheTree(c, source, target, report);
  }

  /** The reply opens under the snapshot's identity and decodes to `m`. */
  ghost predicate Opens(p: P.Primitives, key: P.Key, u: Ulid, blob: Bytes, m: M.Manifest) {
    var plain := P.Open(p, key, M.UlidBytes(u), blob);
    plain.Ok? && M.Decode(plain.value) == Ok(m)
  }

  // ---- the restore ------------------------------------------------------------

  lemma PrefixGrows(done: seq<seq<Bytes>>, next: seq<Bytes>, all: seq<seq<Bytes>>, i: nat)
    ensures i < |all| && done == all[..i] && next == all[i] ==> done + [next] == all[..i + 1]
  {}

  function OfRpc(e: D.RpcError): RestoreError {
    if e.Rejected? then Store(e.e) else if e.Malformed? then BadResponse else Unreachable
  }

  class Restorer {
    const p: P.Primitives
    const key: P.Key
    const idKey: P.Key
    const daemon: D.Daemon
    var target: Tree
    var report: Report

    ghost const backupSet: BackupSet
    ghost const trusted: bool  // uploads are honest and replies are the daemon's own

    ghost predicate Valid()
      reads this, daemon
    {
      && backupSet.p == p && backupSet.key == key && backupSet.idKey == idKey && Sound(backupSet)
      && daemon.Valid() && (trusted ==> daemon.Safe(backupSet))
    }

    constructor (ghost c: BackupSet, ghost trusted: bool, p: P.Primitives, key: P.Key, idKey: P.Key, daemon: D.Daemon,
                 target: Tree)
      requires c.p == p && c.key == key && c.idKey == idKey && Sound(c)
      requires daemon.Valid() && (trusted ==> daemon.Safe(c))
      ensures Valid() && backupSet == c && this.trusted == trusted && this.daemon == daemon
      ensures this.target == target && report == Report(0, 0, 0)
    {
      this.p, this.key, this.idKey, this.daemon, this.target := p, key, idKey, daemon, target;
      report := Report(0, 0, 0);
      backupSet, this.trusted := c, trusted;
    }

    method FetchManifest(u: Ulid, ghost from: nat, ghost created: i64, ghost source: Source)
      returns (r: Result<M.Manifest, RestoreError>, ghost blob: Bytes)
      requires Valid() && Walked(backupSet, source)
      modifies daemon
      ensures Valid() && old(daemon.run) <= daemon.run
      ensures D.Failures(daemon.turns) <= D.Failures(old(daemon.turns))
      ensures r.Ok? ==> Opens(p, key, u, blob, r.value)
      ensures r.Ok? && trusted ==> ManifestAt(daemon.h, p, key, daemon.run, |daemon.run|, u, r.value)
      ensures trusted && StoredListed(daemon.h, backupSet, old(daemon.run), daemon.run, from, u, created, source) ==>
                && (r.Ok? ==> r.value == M.Manifest(u, created, EntriesOf(p, idKey, source)))
                && (r.Err? ==> !D.NoFailures(old(daemon.turns)))
    {
      blob := [];
      var reply := daemon.GetManifestBlob(backupSet, u);
      ManifestStays(daemon.h, backupSet, old(daemon.run), daemon.run, from, u, created, source);
      assert daemon.run[..|daemon.run|] == daemon.run;
      if reply.Err? {
        return Err(OfRpc(reply.error)), blob;
      }
      blob := reply.value;
      var encoded := P.Open(p, key, M.UlidBytes(u), reply.value);
      if encoded.Err? {
        return Err(Crypto(encoded.error)), blob;
      }
      var decoded := M.Decode(encoded.value);
      if decoded.Err? {
        return Err(BadManifest(decoded.error)), blob;
      }
      r := Ok(decoded.value);
    }

    /** One chunk, fetched, decrypted, decoded and checked: whatever the reply,
        only bytes of its identity are accepted. If it is the chunk of `text`,
        no other text of the corpus is, and from a trusted daemon nothing
        else; and a trusted daemon that can read it and does not fail gives it. */
    method FetchChunk(id: ChunkId, ghost text: Bytes) returns (r: Result<Bytes, RestoreError>)
      requires Valid()
      modifies daemon
      ensures Valid() && old(daemon.run) <= daemon.run
      ensures r.Ok? ==> p.keyed(idKey, r.value) == id
      ensures r.Ok? && IsChunk(backupSet, id, text) && (trusted || r.value in backupSet.corpus) ==> r.value == text
      ensures D.Failures(daemon.turns) <= D.Failures(old(daemon.turns))
      ensures r.Err? && trusted && D.NoFailures(old(daemon.turns)) && IsChunk(backupSet, id, text) ==>
                GetChunk(daemon.h, daemon.state.t, daemon.state.disk, id).Err?
    {
      var blob := daemon.ReadChunk(backupSet, id);
      if blob.Err? {
        return Err(OfRpc(blob.error));
      }
      r := Fetch(p, key, idKey, id, blob.value);
      if IsChunk(backupSet, id, text) {
        if trusted {
          FetchedIsTheChunk(daemon.h, backupSet, daemon.run, id, text);
        } else if r.Ok? && r.value in backupSet.corpus {
          VerifiedIsTheChunk(backupSet, id, r.value, text);
        }
      }
    }

    /** One file's chunks in order, then its metadata. */
    method RestoreFile(f: M.FileEntry, ghost texts: seq<Bytes>, ghost from: nat, ghost u: Ulid)
      returns (r: Result<nat, RestoreError>, ghost fetched: seq<Bytes>)
      requires Valid()
      modifies this, daemon
      ensures Valid() && old(daemon.run) <= daemon.run
      ensures D.Failures(daemon.turns) <= D.Failures(old(daemon.turns))
      ensures r.Ok? ==>
                && SafePath(f.path) && Verified(p, idKey, f.chunks, fetched) && r.value == |Concat(fetched)|
                && target == old(target)[f.path := RestoredFile(Concat(fetched), f.mtimeSecs, f.mtimeNanos, f.mode)]
                && report == Report(old(report.files), old(report.bytes) + r.value,
                                    old(report.chunksFetched) + |f.chunks|)
      ensures r.Ok? && trusted && AllChunks(backupSet, f.chunks, texts) ==> fetched == texts
      ensures r.Err? && trusted && D.NoFailures(old(daemon.turns)) && SafePath(f.path)
                && AllChunks(backupSet, f.chunks, texts) ==>
                !(Refers(daemon.h, old(daemon.run), from, u, f.chunks) && ListedThroughout(daemon.h, daemon.run, from, u))
    {
      fetched := [];
      if !SafePath(f.path) {
        return Err(UnsafePath(f.path)), fetched;
      }
      var data: Bytes := [];
      for i := 0 to |f.chunks|
        invariant Valid() && old(daemon.run) <= daemon.run
        invariant D.Failures(daemon.turns) <= D.Failures(old(daemon.turns))
        invariant |fetched| == i && Fetched(p, idKey, backupSet, trusted, f.chunks, texts, fetched, data)
        invariant target == old(target)
        invariant report == Report(old(report.files), old(report.bytes) + |data|, old(report.chunksFetched) + i)
      {
        ghost var text := if i < |texts| then texts[i] else [];
        var chunk := FetchChunk(f.chunks[i], text);
        if chunk.Err? {
          if trusted {
            StillReadable(daemon.h, backupSet, old(daemon.run), daemon.run, from, u, f.chunks, texts, i);
          }
          return Err(chunk.error), fetched;
        }
        FetchedStep(p, idKey, backupSet, trusted, f.chunks, texts, fetched, data, chunk.value);
        fetched := fetched + [chunk.value];
        data := data + chunk.value;
        report := report.(bytes := report.bytes + |chunk.value|, chunksFetched := report.chunksFetched + 1);
      }
      assert f.chunks[..|f.chunks|] == f.chunks;
      target := target[f.path := RestoredFile(data, f.mtimeSecs, f.mtimeNanos, f.mode)];
      r := Ok(|data|);
    }

    /** The next file, checked against its recorded size. If the files are
        `mine`, with `expected` in them, that is what it fetches from a trusted
        daemon; and it does if snapshot `u` has stayed listed and no call fails. */
    method RestoreNext(files: seq<M.FileEntry>, ghost done: seq<seq<Bytes>>, i: nat, ghost mine: bool,
                       ghost expected: seq<seq<Bytes>>, ghost from: nat, ghost u: Ulid)
      returns (r: Result<(), RestoreError>, ghost fetched: seq<Bytes>)
      requires Valid() && (mine ==> trusted && Expecting(backupSet, files, expected))
      requires i == |done| < |files| && Progress(p, idKey, files, done, target, report)
      modifies this, daemon
      ensures Valid() && old(daemon.run) <= daemon.run
      ensures D.Failures(daemon.turns) <= D.Failures(old(daemon.turns))
      ensures r.Ok? ==> Progress(p, idKey, files, done + [fetched], target, report)
      ensures r.Ok? && mine ==> fetched == expected[i]
      ensures r.Err? && mine && D.NoFailures(old(daemon.turns)) ==>
                !(Refers(daemon.h, old(daemon.run), from, u, files[i].chunks)
                  && ListedThroughout(daemon.h, daemon.run, from, u))
    {
      var written;
      written, fetched := RestoreFile(files[i], if mine then expected[i] else [], from, u);
      if written.Err? {
        return Err(written.error), fetched;
      }
      if written.value != files[i].size {
        return Err(SizeMismatch(files[i].path, files[i].size, written.value)), fetched;
      }
      ProgressStep(p, idKey, files, done, old(target), old(report), fetched);
      report := report.(files := report.files + 1);
      r := Ok(());
    }

    /** The files in order. */
    method RestoreFiles(files: seq<M.FileEntry>, ghost mine: bool, ghost expected: seq<seq<Bytes>>, ghost from: nat,
                        ghost u: Ulid)
      returns (r: Result<(), RestoreError>, ghost fetched: seq<seq<Bytes>>)
      requires Valid() && (mine ==> trusted && Expecting(backupSet, files, expected))
      requires target == map[] && report == Report(0, 0, 0)
      modifies this, daemon
      ensures Valid() && old(daemon.run) <= daemon.run
      ensures r.Ok? ==> |fetched| == |files| && Progress(p, idKey, files, fetched, target, report)
      ensures r.Ok? && mine ==> fetched == expected
      ensures r.Err? && mine && D.NoFailures(old(daemon.turns)) ==>
                !(RefersAll(daemon.h, old(daemon.run), from, u, files) && ListedThroughout(daemon.h, daemon.run, from, u))
    {
      fetched := [];
      for i := 0 to |files|
        invariant Valid() && old(daemon.run) <= daemon.run
        invariant D.Failures(daemon.turns) <= D.Failures(old(daemon.turns))
        invariant |fetched| == i && Progress(p, idKey, files, fetched, target, report)
        invariant mine ==> fetched == expected[..i]
      {
        RefersAllLater(daemon.h, old(daemon.run), daemon.run, from, u, files);
        var next;
        ghost var texts;
        next, texts := RestoreNext(files, fetched, i, mine, expected, from, u);
        if next.Err? {
          return next, fetched;
        }
        PrefixGrows(fetched, texts, expected, i);
        fetched := fetched + [texts];
      }
      r := Ok(());
    }

    /** `run_restore` of snapshot `u` into `target`. Whatever the daemon replies,
        when it succeeds the target holds exactly the files of the manifest that
        the blob it got decodes to, each of the recorded size and each chunk
        matching its identity, and the report counts them. From a trusted daemon
        that manifest is the one stored at `at`; if `u` is the backup of
        `source` recorded at `from` and was still listed at `at`, the target is
        the source tree, whatever happened since; and it does succeed if the
        snapshot stays listed, no call fails and the target was empty. */
    method Run(u: Ulid, ghost from: nat, ghost created: i64, ghost source: Source)
      returns (r: Result<Report, RestoreError>, ghost at: nat, ghost blob: Bytes, ghost m: M.Manifest,
               ghost fetched: seq<seq<Bytes>>)
      requires Valid() && Walked(backupSet, source) && report == Report(0, 0, 0)
      modifies this, daemon
      ensures Valid() && old(daemon.run) <= daemon.run
      ensures r.Ok? ==>
                && old(target) == map[] && Opens(p, key, u, blob, m)
                && |fetched| == |m.files| && Progress(p, idKey, m.files, fetched, target, r.value)
      ensures r.Ok? && trusted ==> |old(daemon.run)| <= at && ManifestAt(daemon.h, p, key, daemon.run, at, u, m)
      ensures r.Ok? && trusted
              && StoredListed(daemon.h, backupSet, old(daemon.run), daemon.run[..at], from, u, created, source) ==>
                target == TreeOf(source)
      ensures r.Err? && trusted && old(target) == map[] && D.NoFailures(old(daemon.turns)) ==>
                !StoredListed(daemon.h, backupSet, old(daemon.run), daemon.run, from, u, created, source)
    {
      at, blob, m, fetched := 0, [], M.Manifest(0, 0, []), [];
      if target != map[] {
        return Err(TargetNotEmpty), at, blob, m, fetched;
      }
      var decoded;
      decoded, blob := FetchManifest(u, from, created, source);
      if decoded.Err? {
        return Err(decoded.error), at, blob, m, fetched;
      }
      at, m := |daemon.run|, decoded.value;
      ghost var run1, mine := daemon.run, trusted && m.files == EntriesOf(p, idKey, source);
      EntriesExpect(backupSet, source);
      var all;
      all, fetched := RestoreFiles(decoded.value.files, mine, TextsOf(p, source), from, u);
      if trusted {
        ManifestLater(daemon.h, p, key, run1, daemon.run, u, m);
        ReadEarlier(daemon.h, backupSet, old(daemon.run), run1, daemon.run, from, u, created, source);
      }
      if all.Err? {
        return Err(all.error), at, blob, m, fetched;
      }
      if mine {
        RestoredIsTheTree(backupSet, source, target, report);
      }
      r := Ok(report);
    }
  }

  datatype RoundTripError = InBackup(e: B.BackupError) | InRestore(r: RestoreError)

  /** A backup, then a restore of its snapshot into an empty directory, others
      using the store throughout. A backup that fails does so for one of the
      reasons of `BackupFails`. If it succeeds and no call fails, so does the
      restore, unless the snapshot was deleted; and if the snapshot was there
      when its manifest was read, the restore yields the files backed up or an
      error, never anything else. */
  method BackUpThenRestore(session: B.Session, u: Ulid, createdAt: i64, source: Source)
    returns (r: Result<Tree, RoundTripError>, ghost from: nat, ghost at: nat)
    requires session.Valid() && session.seen == {} && session.pending == [] && session.report == B.NOTHING_YET
    requires Walked(session.backupSet, source)
    modifies session, session.counters, session.daemon
    ensures r.Ok? || r.error.InRestore? ==>
              session.daemon.Safe(session.backupSet) && |old(session.daemon.run)| < from <= |session.daemon.run|
    ensures r.Ok? ==> at <= |session.daemon.run|
    ensures r.Ok? && ListedThroughout(session.daemon.h, session.daemon.run[..at], from, u) ==> r.value == TreeOf(source)
    ensures r.Err? && r.error.InRestore? && D.NoFailures(old(session.daemon.turns)) ==>
              !ListedThroughout(session.daemon.h, session.daemon.run, from, u)
    ensures r.Err? && r.error.InBackup? ==>
              B.BackupFails(r.error.e, session.backupSet, session.phase, session.policy, old(session.daemon.turns),
                            session.daemon.h, session.daemon.run, session.daemon.state, session.start, from, session.shipped,
                            M.Manifest(u, createdAt, EntriesOf(session.p, session.idKey, source)))
  {
    at := 0;
    var done;
    done, from := session.RunBackup(u, createdAt, source);
    if done.Err? {
      return Err(InBackup(done.error)), from, at;
    }
    var restorer := new Restorer(session.backupSet, true, session.p, session.key, session.idKey, session.daemon, map[]);
    var report;
    ghost var blob, m, fetched;
    report, at, blob, m, fetched := restorer.Run(u, from, createdAt, source);
    r := if report.Ok? then Ok(restorer.target) else Err(InRestore(report.error));
  }
}
