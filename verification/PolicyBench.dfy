/** The compression-policy simulator and the manifest projection of the chunk
    size benchmark: what they report is what a backup of the same chunks and
    files costs. */
module PolicyBench {
  import opened Bytes
  import opened Wrappers
  import opened ChunkIds
  import opened Protocol
  import opened Compression
  import P = Primitives
  import B = Backup
  import M = Manifest

  // ---- compression policies ------------------------------------------------

  datatype PolicyKind = RawOnly | Zstd3Always | Zstd3 | ProbeZstd3 | Zstd3Escalate

  function Config(kind: PolicyKind): PolicyConfig {
    match kind
    case RawOnly => DEFAULT_POLICY.(keepThreshold := Finite(0.0))
    case Zstd3Always => DEFAULT_POLICY.(keepThreshold := Infinite)
    case Zstd3 => DEFAULT_POLICY
    case ProbeZstd3 => DEFAULT_POLICY.(useProbe := true)
    case Zstd3Escalate => DEFAULT_POLICY.(escalate := true)
  }

  datatype PolicyStoredStats = PolicyStoredStats(
    chunkCount: nat, bytesIn: nat, bytesOut: nat, framedBytes: nat, storedBytes: nat,
    rawChunks: nat, zstd3Chunks: nat, escalatedChunks: nat, escalationAttempts: nat)

  lemma LogStep(p: P.Primitives, chunks: seq<Bytes>, i: nat, phase: Phase, cfg: PolicyConfig)
    requires i < |chunks|
    ensures var log, log' := LogOf(p, chunks[..i], phase, cfg), LogOf(p, chunks[..i + 1], phase, cfg);
            var choice := Choose(p, chunks[i], phase, cfg);
            && Tally(log') == Count(Tally(log), chunks[i], choice)
            && B.StoredBytes(log') == B.StoredBytes(log) + |choice.Payload()| + 41
            && ChunkBytes(log') == ChunkBytes(log) + |chunks[i]|
  {
    assert LogOf(p, chunks[..i + 1], phase, cfg)[..i] == LogOf(p, chunks[..i], phase, cfg);
  }

  method ChooseAll(p: P.Primitives, chunks: seq<Bytes>, cfg: PolicyConfig, phase: Phase) returns (counters: PolicyCounters)
    ensures fresh(counters) && counters.View() == Tally(LogOf(p, chunks, phase, cfg))
  {
    counters := new PolicyCounters();
    for i := 0 to |chunks|
      invariant fresh(counters) && counters.View() == Tally(LogOf(p, chunks[..i], phase, cfg))
    {
      LogStep(p, chunks, i, phase, cfg);
      var _, _ := ChooseCodec(p, chunks[i], phase, cfg, counters);
    }
    assert chunks[..|chunks|] == chunks;
  }

  /** The closed form: a codec byte and the AEAD's nonce and tag per chunk. */
  function StatsOf(c: Counters): PolicyStoredStats {
    var framed := c.bytesOut + c.Total();
    PolicyStoredStats(c.Total(), c.bytesIn, c.bytesOut, framed, framed + 40 * c.Total(),
                      c.raw, c.zstd3, c.escalated, c.escalationAttempts)
  }

  lemma StatsOfCounts(c: Counters, n: nat, stored: nat)
    requires c.Total() == n && stored == c.bytesOut + 41 * n
    ensures StatsOf(c).chunkCount == n && StatsOf(c).storedBytes == stored
  {}

  lemma StoredIs(log: Log)
    ensures B.StoredBytes(log) == Tally(log).bytesOut + 41 * |log|
  {
    TallyBytesOut(log);
  }

  lemma StatsOfTally(log: Log, c: Counters)
    requires c == Tally(log)
    ensures StatsOf(c).chunkCount == |log| && StatsOf(c).storedBytes == B.StoredBytes(log)
  {
    TallyTotal(log);
    StoredIs(log);
    StatsOfCounts(c, |log|, B.StoredBytes(log));
  }

  /** `simulate_policy`: the real policy engine over every chunk, and then the
      framing and AEAD overhead added arithmetically. */
  method SimulatePolicy(p: P.Primitives, chunks: seq<Bytes>, kind: PolicyKind, phase: Phase)
    returns (stats: PolicyStoredStats)
    ensures stats == StatsOf(Tally(LogOf(p, chunks, phase, Config(kind))))
    ensures stats.chunkCount == |chunks| == stats.rawChunks + stats.zstd3Chunks + stats.escalatedChunks
    ensures stats.storedBytes == B.StoredBytes(LogOf(p, chunks, phase, Config(kind)))
  {
    var counters := ChooseAll(p, chunks, Config(kind), phase);
    StatsOfTally(LogOf(p, chunks, phase, Config(kind)), counters.View());
    stats := StatsOf(counters.View());
  }

  /** What the simulator reports for the chunks a backup shipped is what that
      backup's ledger says it uploaded. */
  method SimulateBackup(p: P.Primitives, idKey: P.Key, kind: PolicyKind, phase: Phase, ghost source: Source,
                        report: B.Report, shipped: B.Batch)
    returns (stats: PolicyStoredStats)
    requires Sizes(source) && B.Accounts(p, idKey, phase, Config(kind), source, report, shipped)
    ensures stats.storedBytes == report.uploadBytes && stats.chunkCount == report.chunksUploaded
    ensures stats == StatsOf(report.compression)
  {
    stats := SimulatePolicy(p, B.Texts(shipped), kind, phase);
  }

  /** "Never compress" is the keep threshold at zero, which works for every
      chunk exactly when no chunk compresses to nothing at all. */
  lemma RawOnlyIff(p: P.Primitives)
    ensures (forall chunk: Bytes, phase: Phase {:trigger Choose(p, chunk, phase, Config(RawOnly))} ::
               Choose(p, chunk, phase, Config(RawOnly)).Unpacked?)
       <==> (forall chunk: Bytes {:trigger p.zstd(chunk, 3)} :: chunk != [] ==> p.zstd(chunk, 3) != Some([]))
  {
    forall chunk: Bytes, phase: Phase
      ensures Choose(p, chunk, phase, Config(RawOnly)).Unpacked? <==> chunk == [] || p.zstd(chunk, 3) != Some([])
    {
      RawOnlyAt(p, chunk, phase);
    }
    forall chunk: Bytes | chunk != [] && p.zstd(chunk, 3) == Some([])
      ensures !Choose(p, chunk, InitialFull, Config(RawOnly)).Unpacked?
    {
    }
  }

  lemma RawOnlyAt(p: P.Primitives, chunk: Bytes, phase: Phase)
    ensures Choose(p, chunk, phase, Config(RawOnly)).Unpacked? <==> chunk == [] || p.zstd(chunk, 3) != Some([])
  {
    assert |chunk| as real * 0.0 == 0.0;
  }

  /** "Always compress" falls back to raw only for an empty chunk or a failed
      compressor. */
  lemma AlwaysKeeps(p: P.Primitives, chunk: Bytes, phase: Phase)
    ensures Choose(p, chunk, phase, Config(Zstd3Always)).Unpacked? <==> chunk == [] || p.zstd(chunk, 3).None?
  {}

  lemma EscalatedAt(p: P.Primitives, chunk: Bytes, phase: Phase)
    ensures var plain, retried := Choose(p, chunk, phase, Config(Zstd3)), Choose(p, chunk, phase, Config(Zstd3Escalate));
            && |retried.Payload()| <= |plain.Payload()| <= |chunk|
            && (retried.Unpacked? <==> plain.Unpacked?)
            && (phase.InitialFull? ==> retried == plain)
  {
    ChoiceNeverGrows(p, chunk, phase, Config(Zstd3));
  }

  /** Escalation never stores more than plain zstd, zstd never more than the
      chunks themselves, and during the first full backup escalation changes
      nothing. */
  lemma {:induction false} EscalationNeverCosts(p: P.Primitives, chunks: seq<Bytes>, phase: Phase)
    ensures var plain, retried := LogOf(p, chunks, phase, Config(Zstd3)), LogOf(p, chunks, phase, Config(Zstd3Escalate));
            && B.StoredBytes(retried) <= B.StoredBytes(plain) <= ChunkBytes(plain) + 41 * |chunks|
            && Tally(retried).raw == Tally(plain).raw
            && (phase.InitialFull? ==> Tally(retried) == Tally(plain))
  {
    if chunks != [] {
      var k := |chunks| - 1;
      EscalationNeverCosts(p, chunks[..k], phase);
      EscalatedAt(p, chunks[k], phase);
      assert chunks[..k + 1] == chunks;
      LogStep(p, chunks, k, phase, Config(Zstd3));
      LogStep(p, chunks, k, phase, Config(Zstd3Escalate));
    }
  }

  // ---- manifest projection -------------------------------------------------

  datatype ChunkMeta = ChunkMeta(id: ChunkId, len: nat)

  datatype FileChunking = FileChunking(relPath: Bytes, metas: seq<ChunkMeta>)

  /** The benchmark's view of a tree: each file chunked whole. Its identities
      may be other than a backup's, for which the key is needed. */
  function Measured(p: P.Primitives, identity: Bytes -> ChunkId, source: Source): (files: seq<FileChunking>)
    ensures |files| == |source|
  {
    seq(|source|, i requires 0 <= i < |source| => FileChunking(source[i].path, MetasOf(identity, p.cdc(source[i].data))))
  }

  function MetasOf(identity: Bytes -> ChunkId, texts: seq<Bytes>): (metas: seq<ChunkMeta>)
    ensures |metas| == |texts|
  {
    seq(|texts|, i requires 0 <= i < |texts| => ChunkMeta(identity(texts[i]), |texts[i]|))
  }

  function MetaBytes(metas: seq<ChunkMeta>): nat {
    if metas == [] then 0 else MetaBytes(metas[..|metas| - 1]) + metas[|metas| - 1].len
  }

  function FilesMetaBytes(files: seq<FileChunking>): nat {
    if files == [] then 0 else FilesMetaBytes(files[..|files| - 1]) + MetaBytes(files[|files| - 1].metas)
  }

  function ProjectedBytes(files: seq<FileChunking>): nat {
    if files == [] then M.HEADER_BYTES else
      var k := |files| - 1;
      ProjectedBytes(files[..k]) + M.FILE_FIXED_BYTES + |files[k].relPath| + ID_LEN * |files[k].metas|
  }

  /** The per-candidate loop of `build_report`: manifest and content bytes. */
  method MeasureCandidate(files: seq<FileChunking>) returns (manifestBytes: nat, totalBytes: nat)
    ensures manifestBytes == ProjectedBytes(files) && totalBytes == FilesMetaBytes(files)
  {
    manifestBytes, totalBytes := M.HEADER_BYTES, 0;
    for i := 0 to |files|
      invariant manifestBytes == ProjectedBytes(files[..i]) && totalBytes == FilesMetaBytes(files[..i])
    {
      assert files[..i + 1][..i] == files[..i];
      var metas := files[i].metas;
      manifestBytes := manifestBytes + (M.FILE_FIXED_BYTES + |files[i].relPath| + ID_LEN * |metas|);
      var fileBytes := 0;
      for j := 0 to |metas|
        invariant fileBytes == MetaBytes(metas[..j])
      {
        assert metas[..j + 1][..j] == metas[..j];
        fileBytes := fileBytes + metas[j].len;
      }
      assert metas[..|metas|] == metas;
      totalBytes := totalBytes + fileBytes;
    }
    assert files[..|files|] == files;
  }

  lemma {:induction false} MetaBytesAreTheFile(identity: Bytes -> ChunkId, texts: seq<Bytes>)
    ensures MetaBytes(MetasOf(identity, texts)) == |Concat(texts)|
  {
    if texts != [] {
      var k := |texts| - 1;
      MetaBytesAreTheFile(identity, texts[..k]);
      assert MetasOf(identity, texts)[..k] == MetasOf(identity, texts[..k]);
      ConcatLast(texts);
    }
  }

  lemma {:induction false} FilesLenSnoc(files: seq<M.FileEntry>, f: M.FileEntry)
    ensures M.FilesLen(files + [f]) == M.FilesLen(files) + M.FILE_FIXED_BYTES + |f.path| + ID_LEN * |f.chunks|
  {
    if files == [] {
      assert M.FilesLen([f]) == M.FILE_FIXED_BYTES + |f.path| + ID_LEN * |f.chunks| + M.FilesLen([]);
    } else {
      FilesLenSnoc(files[1..], f);
      assert (files + [f])[1..] == files[1..] + [f];
    }
  }

  /** The projection for a tree is the exact size of the manifest a backup of
      it records, and the content bytes are the tree's. */
  lemma {:induction false} ProjectionIsExact(p: P.Primitives, identity: Bytes -> ChunkId, idKey: P.Key, source: Source)
    requires Sizes(source) && P.ChunkerLaw(p)
    ensures var files := Measured(p, identity, source);
            && ProjectedBytes(files) == M.EncodedLen(M.Manifest(0, 0, EntriesOf(p, idKey, source)))
            && FilesMetaBytes(files) == B.SourceBytes(source)
  {
    if source != [] {
      var k := |source| - 1;
      ProjectionIsExact(p, identity, idKey, source[..k]);
      assert Measured(p, identity, source)[..k] == Measured(p, identity, source[..k]);
      assert EntriesOf(p, idKey, source) == EntriesOf(p, idKey, source[..k]) + [EntryOf(p, idKey, source[k])];
      FilesLenSnoc(EntriesOf(p, idKey, source[..k]), EntryOf(p, idKey, source[k]));
      MetaBytesAreTheFile(identity, p.cdc(source[k].data));
      assert Concat(p.cdc(source[k].data)) == source[k].data;
    }
  }
}
