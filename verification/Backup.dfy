/** One backup run: walk, chunk, deduplicate, compress, encrypt, ship, record. */
module Backup {
  import opened Bytes
  import opened Wrappers
  import opened ChunkIds
  import opened Tables
  import opened Machine
  import opened Protocol
  import D = Daemon
  import G = GarbageCollection
  import W = GraceWindow
  import P = Primitives
  import Z = Compression
  import R = RefCounts
  import M = Manifest
  import MC = ManifestCodec

  const BATCH_MAX_CHUNKS: nat := 64
  const BATCH_MAX_BYTES: nat := 32 * 1024 * 1024

  datatype BackupError =
    | Rpc(e: D.RpcError)
    | Sealing(c: P.CryptoError)
    | Encoding(m: M.ManifestError)
    | BadReply

  datatype Report = Report(
    files: nat, sourceBytes: nat, chunksTotal: nat, chunksUnique: nat, chunksUploaded: nat, chunksDeduped: nat,
    uploadBytes: nat, manifestBytes: nat, compression: Z.Counters)

  const NOTHING_YET: Report := Report(0, 0, 0, 0, 0, 0, 0, 0, Z.ZERO)

  // ---- batches -------------------------------------------------------------

  type Batch = seq<(ChunkId, Bytes)>

  predicate Distinct(batch: Batch) {
    forall i, j | 0 <= i < j < |batch| :: batch[i].0 != batch[j].0
  }

  /** `id` is one of the first `n`. */
  predicate Has(batch: Batch, n: nat, id: ChunkId)
    requires n <= |batch|
  {
    exists i :: 0 <= i < n && batch[i].0 == id
  }

  function BatchBytes(batch: Batch): nat {
    if batch == [] then 0 else BatchBytes(batch[..|batch| - 1]) + |batch[|batch| - 1].1|
  }

  function Texts(batch: Batch): (texts: seq<Bytes>)
    ensures |texts| == |batch|
  {
    seq(|batch|, i requires 0 <= i < |batch| => batch[i].1)
  }

  function Asked(batch: Batch): (asked: seq<ChunkId>)
    ensures |asked| == |batch| && forall i | 0 <= i < |batch| :: asked[i] == batch[i].0
  {
    seq<ChunkId>(|batch|, i requires 0 <= i < |batch| => batch[i].0)
  }

  ghost predicate ChunkBatch(c: BackupSet, batch: Batch) {
    forall i | 0 <= i < |batch| :: IsChunk(c, batch[i].0, batch[i].1)
  }

  /** The first `i` pending chunks are dealt with: those missing, and no others,
      are in `blobs`, which are the chunks shipped after the first `n0`. */
  ghost predicate PackedTo(pending: Batch, i: nat, missing: set<ChunkId>, shipped: Batch, n0: nat, blobs: Batch) {
    && i <= |pending| && |shipped| == n0 + |blobs|
    && (forall k | 0 <= k < n0 :: !Has(pending, |pending|, shipped[k].0))
    && (forall k | 0 <= k < |blobs| ::
          blobs[k].0 == shipped[n0 + k].0 && Has(pending, i, blobs[k].0) && blobs[k].0 in missing)
    && (forall k | 0 <= k < i && pending[k].0 in missing :: Has(blobs, |blobs|, pending[k].0))
  }

  lemma NotYetShipped(pending: Batch, i: nat, missing: set<ChunkId>, shipped: Batch, n0: nat, blobs: Batch)
    requires PackedTo(pending, i, missing, shipped, n0, blobs) && i < |pending| && Distinct(pending)
    ensures !Has(shipped, |shipped|, pending[i].0)
  {
    forall k | 0 <= k < |shipped|
      ensures shipped[k].0 != pending[i].0
    {
      if k >= n0 {
        assert blobs[k - n0].0 == shipped[n0 + (k - n0)].0;
      }
    }
  }

  lemma SendStep(pending: Batch, i: nat, missing: set<ChunkId>, shipped: Batch, n0: nat, blobs: Batch, sealed: Bytes)
    requires PackedTo(pending, i, missing, shipped, n0, blobs) && i < |pending| && pending[i].0 in missing
    ensures PackedTo(pending, i + 1, missing, shipped + [pending[i]], n0, blobs + [(pending[i].0, sealed)])
  {
    var blobs' := blobs + [(pending[i].0, sealed)];
    assert blobs'[|blobs|].0 == pending[i].0;
    forall k | 0 <= k < i + 1 && pending[k].0 in missing
      ensures Has(blobs', |blobs'|, pending[k].0)
    {
      if k < i {
        var j :| 0 <= j < |blobs| && blobs[j].0 == pending[k].0;
        assert blobs'[j].0 == pending[k].0;
      }
    }
  }

  // ---- what shipping costs ---------------------------------------------------

  /** What uploading the chunks of a log costs: the payloads, and for each a
      codec byte and the AEAD's nonce and tag. */
  function StoredBytes(log: Z.Log): nat {
    Z.PayloadBytes(log) + 41 * |log|
  }

  lemma LogSnoc(p: P.Primitives, batch: Batch, last: (ChunkId, Bytes), phase: Z.Phase, cfg: Z.PolicyConfig)
    ensures var log, log' := Z.LogOf(p, Texts(batch), phase, cfg), Z.LogOf(p, Texts(batch + [last]), phase, cfg);
            var choice := Z.Choose(p, last.1, phase, cfg);
            && Z.Tally(log') == Z.Count(Z.Tally(log), last.1, choice)
            && StoredBytes(log') == StoredBytes(log) + |choice.Payload()| + 1 + P.BLOB_OVERHEAD
  {
    var log' := Z.LogOf(p, Texts(batch + [last]), phase, cfg);
    assert log'[..|batch|] == Z.LogOf(p, Texts(batch), phase, cfg);
  }

  /** What a backup ships for one of its chunks is honest: no other chunk of
      the set has that identity. */
  lemma ShippedIsHonest(c: BackupSet, id: ChunkId, text: Bytes, phase: Z.Phase, cfg: Z.PolicyConfig, nonce: P.Nonce)
    requires Sound(c) && IsChunk(c, id, text)
    ensures var r := Ship(c.p, c.key, id, text, phase, cfg, nonce);
            r.Ok? ==>
              && Honest(c, id, r.value)
              && |r.value| == |Z.Choose(c.p, text, phase, cfg).Payload()| + 1 + P.BLOB_OVERHEAD
  {
    ShippedIsFetched(c, text, phase, cfg, nonce);
    forall other | IsChunk(c, id, other)
      ensures other == text
    {
      assert P.SameIdentity(c.p, c.idKey, other, text);
    }
  }

  /** What a backup uploads for one of its chunks. */
  ghost predicate IsShipment(c: BackupSet, phase: Z.Phase, cfg: Z.PolicyConfig, id: ChunkId, blob: Bytes) {
    exists text, nonce: P.Nonce :: IsChunk(c, id, text) && Ship(c.p, c.key, id, text, phase, cfg, nonce) == Ok(blob)
  }

  ghost predicate Shipment(c: BackupSet, phase: Z.Phase, cfg: Z.PolicyConfig, blobs: Batch) {
    forall i | 0 <= i < |blobs| :: IsShipment(c, phase, cfg, blobs[i].0, blobs[i].1)
  }

  lemma ShipmentIsHonest(c: BackupSet, phase: Z.Phase, cfg: Z.PolicyConfig, blobs: Batch)
    requires Sound(c) && Shipment(c, phase, cfg, blobs)
    ensures forall i | 0 <= i < |blobs| :: Honest(c, blobs[i].0, blobs[i].1)
  {
    forall i | 0 <= i < |blobs|
      ensures Honest(c, blobs[i].0, blobs[i].1)
    {
      var text, nonce: P.Nonce :| IsChunk(c, blobs[i].0, text)
                                  && Ship(c.p, c.key, blobs[i].0, text, phase, cfg, nonce) == Ok(blobs[i].1);
      ShippedIsHonest(c, blobs[i].0, text, phase, cfg, nonce);
    }
  }

  // ---- why a backup fails ------------------------------------------------------

  ghost predicate Unsealable(c: BackupSet) {
    exists aad, text, nonce: P.Nonce :: P.Seal(c.p, c.key, aad, text, nonce).Err?
  }

  /** The store cannot begin to write something the backup uploads. */
  ghost predicate Obstructed(c: BackupSet, phase: Z.Phase, cfg: Z.PolicyConfig, s: State) {
    exists id, blob :: IsShipment(c, phase, cfg, id, blob) && D.Daemon.Busy(s, id, blob)
  }

  lemma BusyObstructs(c: BackupSet, phase: Z.Phase, cfg: Z.PolicyConfig, blobs: Batch, s: State)
    requires Shipment(c, phase, cfg, blobs)
    ensures (exists i :: 0 <= i < |blobs| && D.Daemon.Busy(s, blobs[i].0, blobs[i].1)) ==> Obstructed(c, phase, cfg, s)
  {}

  /** Shipping chunks fails only because a seal does, or one of the turns, or
      the store cannot begin an upload. */
  ghost predicate ShippingFails(e: BackupError, c: BackupSet, phase: Z.Phase, cfg: Z.PolicyConfig, turns: seq<D.Turn>,
                                s: State)
  {
    match e
    case Sealing(_) => Unsealable(c)
    case BadReply => !D.NoFailures(turns)
    case Rpc(Failed) => !D.NoFailures(turns) || Obstructed(c, phase, cfg, s)
    case _ => false
  }

  lemma FailedBefore(e: BackupError, c: BackupSet, phase: Z.Phase, cfg: Z.PolicyConfig, before: seq<D.Turn>,
                     turns: seq<D.Turn>, s: State)
    requires D.Failures(turns) <= D.Failures(before)
    ensures ShippingFails(e, c, phase, cfg, turns, s) ==> ShippingFails(e, c, phase, cfg, before, s)
  {}

  function OfRpc(e: D.RpcError): BackupError {
    if e.Malformed? then BadReply else Rpc(e)
  }

  /** What is pending after a flush: the daemon is asked for each pending
      chunk in turn, and its answer drains them all. */
  function Left(turns: seq<D.Turn>, pending: Batch): Batch {
    if D.AllDone(turns, |pending|) then [] else pending
  }

  lemma NoneLeft(turns: seq<D.Turn>, pending: Batch)
    requires pending != [] && turns != [] && !turns[0].outcome.Done?
    ensures !D.AllDone(turns, |pending|) && Left(turns, pending) == pending
  {}

  // ---- the ledger ------------------------------------------------------------

  /** Counters and upload bytes are what the compression simulator computes
      for the chunks shipped, and no chunk was shipped twice. */
  ghost predicate ShippedOnce(p: P.Primitives, phase: Z.Phase, cfg: Z.PolicyConfig, shipped: Batch,
                              uploaded: nat, uploadBytes: nat, counters: Z.Counters)
  {
    && uploaded == |shipped| && Distinct(shipped)
    && counters == Z.Tally(Z.LogOf(p, Texts(shipped), phase, cfg))
    && uploadBytes == StoredBytes(Z.LogOf(p, Texts(shipped), phase, cfg))
  }

  /** Pending chunks are distinct chunks of the set, none shipped before. */
  ghost predicate Packable(c: BackupSet, pending: Batch, shipped: Batch) {
    && Distinct(pending) && ChunkBatch(c, pending)
    && forall k | 0 <= k < |shipped| :: !Has(pending, |pending|, shipped[k].0)
  }

  /** Every chunk seen is pending, or was in the daemon's index at some moment
      since the backup began; and every chunk shipped came into it since. */
  ghost predicate Confirmed(h: Hash, run: Run, start: nat, seen: set<ChunkId>, pending: Batch, shipped: Batch) {
    && start <= |run|
    && (forall i | 0 <= i < |pending| :: pending[i].0 in seen)
    && (forall k | 0 <= k < |shipped| :: shipped[k].0 in seen)
    && StoredFrom(h, run, start, shipped, 0)
    && (forall id | id in seen :: Has(pending, |pending|, id) || id in D.IndexedIds(h, run, start))
  }

  /** The chunks shipped after the first `n0` were missing from the daemon's
      index at some moment from `from` on, and in it at a later one. */
  ghost predicate StoredFrom(h: Hash, run: Run, from: nat, shipped: Batch, n0: nat) {
    forall k | n0 <= k < |shipped| :: shipped[k].0 in W.StoredIds(h, run, from)
  }

  /** Uploaded, deduplicated and pending chunks are all the chunks seen. */
  ghost predicate Balanced(report: Report, seen: set<ChunkId>, pending: Batch) {
    report.chunksUnique == |seen| == report.chunksUploaded + report.chunksDeduped + |pending|
  }

  /** A report that differs from `before` only in what chunks count. */
  ghost predicate Noted(report: Report, before: Report, total: nat) {
    && report.files == before.files && report.sourceBytes == before.sourceBytes
    && report.manifestBytes == before.manifestBytes && report.compression == before.compression
    && report.chunksTotal == total
  }

  ghost predicate SeenAre(seen: set<ChunkId>, before: set<ChunkId>, ids: seq<ChunkId>) {
    forall id :: id in seen <==> id in before || id in ids
  }

  /** The first `|files|` files of the source are chunked and recorded. */
  ghost predicate FilesDone(p: P.Primitives, idKey: P.Key, source: Source, files: seq<M.FileEntry>,
                            seen: set<ChunkId>, report: Report)
    requires Sizes(source)
  {
    && |files| <= |source|
    && (forall k | 0 <= k < |files| :: files[k] == EntryOf(p, idKey, source[k]))
    && SeenAre(seen, {}, M.ChunkRefs(files))
    && Noted(report, NOTHING_YET.(files := |files|, sourceBytes := SourceBytes(source[..|files|])), |M.ChunkRefs(files)|)
  }

  lemma FilesStep(p: P.Primitives, idKey: P.Key, source: Source, files: seq<M.FileEntry>, seen: set<ChunkId>, report: Report,
                  entry: M.FileEntry, seen': set<ChunkId>, report': Report)
    requires Sizes(source) && FilesDone(p, idKey, source, files, seen, report) && |files| < |source|
    requires entry == EntryOf(p, idKey, source[|files|]) && SeenAre(seen', seen, entry.chunks)
    requires Noted(report', report.(files := report.files + 1,
                                    sourceBytes := report.sourceBytes + |source[|files|].data|),
                   report.chunksTotal + |entry.chunks|)
    ensures FilesDone(p, idKey, source, files + [entry], seen', report')
  {
    var i := |files|;
    assert source[..i + 1][..i] == source[..i];
    MC.ChunkRefsSnoc(files, entry);
  }

  /** The first `|ids|` chunks of a file are seen and counted. */
  ghost predicate PartsDone(p: P.Primitives, idKey: P.Key, parts: seq<Bytes>, ids: seq<ChunkId>, len: nat,
                            before: set<ChunkId>, seen: set<ChunkId>, report0: Report, report: Report)
  {
    && |ids| <= |parts|
    && (forall k | 0 <= k < |ids| :: ids[k] == p.keyed(idKey, parts[k]))
    && len == |Concat(parts[..|ids|])|
    && SeenAre(seen, before, ids)
    && Noted(report, report0, report0.chunksTotal + |ids|)
  }

  lemma PartsStep(p: P.Primitives, idKey: P.Key, parts: seq<Bytes>, ids: seq<ChunkId>, len: nat,
                  before: set<ChunkId>, seen: set<ChunkId>, report0: Report, report: Report, report': Report)
    requires PartsDone(p, idKey, parts, ids, len, before, seen, report0, report) && |ids| < |parts|
    requires Noted(report', report, report.chunksTotal + 1)
    ensures var id := p.keyed(idKey, parts[|ids|]);
            PartsDone(p, idKey, parts, ids + [id], len + |parts[|ids|]|, before, seen + {id}, report0, report')
  {
    var j := |ids|;
    assert parts[..j + 1][..j] == parts[..j];
    ConcatLast(parts[..j + 1]);
  }

  lemma PartsAll(p: P.Primitives, idKey: P.Key, parts: seq<Bytes>, ids: seq<ChunkId>, len: nat,
                 before: set<ChunkId>, seen: set<ChunkId>, report0: Report, report: Report)
    requires PartsDone(p, idKey, parts, ids, len, before, seen, report0, report) && |ids| == |parts|
    ensures ids == IdsOf(p, idKey, parts) && len == |Concat(parts)|
  {
    assert parts[..|parts|] == parts;
  }

  // ---- the session -----------------------------------------------------------

  /** Connection, keys, policy and running ledger of one backup, with the
      chunks seen this run and those awaiting a flush. */
  class Session {
    const p: P.Primitives
    const key: P.Key
    const idKey: P.Key
    const rng: nat -> P.Nonce
    const phase: Z.Phase
    const policy: Z.PolicyConfig
    const daemon: D.Daemon
    const counters: Z.PolicyCounters
    var report: Report
    var drawn: nat
    var seen: set<ChunkId>
    var pending: Batch
    var pendingBytes: nat

    ghost const backupSet: BackupSet
    ghost var start: nat      // length of the daemon's run when the backup began
    ghost var shipped: Batch  // every chunk encrypted and sent, in order

    ghost predicate Keyed()
      reads this
    {
      backupSet.p == p && backupSet.key == key && backupSet.idKey == idKey && Sound(backupSet)
    }

    ghost predicate Shipped()
      reads this, counters
    {
      ShippedOnce(p, phase, policy, shipped, report.chunksUploaded, report.uploadBytes, counters.View())
    }

    ghost predicate Valid()
      reads this, counters, daemon
    {
      && Keyed() && daemon.Safe(backupSet)
      && ShippedOnce(p, phase, policy, shipped, report.chunksUploaded, report.uploadBytes, counters.View())
      && Ledger()
    }

    ghost predicate Ledger()
      reads this, daemon
    {
      && Packable(backupSet, pending, shipped)
      && Confirmed(daemon.h, daemon.run, start, seen, pending, shipped)
      && Balanced(report, seen, pending)
      && pendingBytes == BatchBytes(pending)
    }

    constructor (ghost c: BackupSet, p: P.Primitives, key: P.Key, idKey: P.Key, rng: nat -> P.Nonce,
                 phase: Z.Phase, policy: Z.PolicyConfig, daemon: D.Daemon)
      requires c.p == p && c.key == key && c.idKey == idKey && Sound(c) && daemon.Safe(c)
      ensures Valid() && fresh(this) && fresh(counters) && this.daemon == daemon && backupSet == c
      ensures start == |daemon.run| && seen == {} && pending == [] && report == NOTHING_YET
      ensures this.p == p && this.idKey == idKey && this.phase == phase && this.policy == policy
    {
      this.p, this.key, this.idKey, this.rng := p, key, idKey, rng;
      this.phase, this.policy, this.daemon := phase, policy, daemon;
      counters := new Z.PolicyCounters();
      report := NOTHING_YET;
      drawn, seen, pending, pendingBytes := 0, {}, [], 0;
      backupSet, start, shipped := c, |daemon.run|, [];
    }

    /** A report in which only what packing counts may differ. */
    ghost predicate Counted(before: Report, deduped: nat)
      reads this
    {
      report == before.(chunksUploaded := report.chunksUploaded, uploadBytes := report.uploadBytes, chunksDeduped := deduped)
    }

    /** Compresses, frames and encrypts one missing chunk, and counts it. */
    method Pack(id: ChunkId, text: Bytes) returns (r: Result<Bytes, BackupError>)
      requires Keyed() && IsChunk(backupSet, id, text) && Shipped() && !Has(shipped, |shipped|, id)
      modifies this`report, this`drawn, this`shipped, counters
      ensures r.Ok? ==> IsShipment(backupSet, phase, policy, id, r.value)
      ensures r.Ok? ==> Shipped() && shipped == old(shipped) + [(id, text)]
      ensures r.Ok? ==> Counted(old(report), old(report.chunksDeduped))
      ensures r.Err? ==> r.error.Sealing? && Unsealable(backupSet)
    {
      LogSnoc(p, shipped, (id, text), phase, policy);
      ShippedIsHonest(backupSet, id, text, phase, policy, rng(drawn));
      var codec, payload := Z.ChooseCodec(p, text, phase, policy, counters);
      var sealed := P.Seal(p, key, id, Z.Frame(codec, payload), rng(drawn));
      drawn := drawn + 1;
      if sealed.Err? {
        return Err(Sealing(sealed.error));
      }
      report := report.(uploadBytes := report.uploadBytes + |sealed.value|, chunksUploaded := report.chunksUploaded + 1);
      shipped := shipped + [(id, text)];
      r := Ok(sealed.value);
    }

    method CountDeduped()
      requires Shipped()
      modifies this`report
      ensures Shipped() && Counted(old(report), old(report.chunksDeduped) + 1)
      ensures report.chunksUploaded == old(report.chunksUploaded)
    {
      report := report.(chunksDeduped := report.chunksDeduped + 1);
    }

    method PackNext(i: nat, missing: set<ChunkId>, ghost n0: nat, blobs: Batch) returns (r: Result<Batch, BackupError>)
      requires Keyed() && Distinct(pending) && ChunkBatch(backupSet, pending) && Shipped()
      requires i < |pending| && PackedTo(pending, i, missing, shipped, n0, blobs) && Shipment(backupSet, phase, policy, blobs)
      modifies this`report, this`drawn, this`shipped, counters
      ensures r.Ok? ==> PackedTo(pending, i + 1, missing, shipped, n0, r.value) && Shipment(backupSet, phase, policy, r.value)
      ensures r.Ok? ==> old(shipped) <= shipped
      ensures r.Ok? ==> Shipped() && Counted(old(report), report.chunksDeduped)
      ensures r.Ok? ==> report.chunksUploaded + report.chunksDeduped
                        == old(report.chunksUploaded) + old(report.chunksDeduped) + 1
      ensures r.Err? ==> r.error.Sealing? && Unsealable(backupSet)
    {
      var (id, data) := pending[i];
      if id in missing {
        NotYetShipped(pending, i, missing, shipped, n0, blobs);
        var one := Pack(id, data);
        if one.Err? {
          return Err(one.error);
        }
        SendStep(pending, i, missing, old(shipped), n0, blobs, one.value);
        r := Ok(blobs + [(id, one.value)]);
      } else {
        CountDeduped();
        r := Ok(blobs);
      }
    }

    /** Packs the pending chunks the daemon reported missing; the others count
        as deduplicated. */
    method PackMissing(missing: set<ChunkId>) returns (r: Result<Batch, BackupError>)
      requires Keyed() && Packable(backupSet, pending, shipped) && Shipped()
      modifies this`report, this`drawn, this`shipped, counters
      ensures r.Ok? ==> PackedTo(pending, |pending|, missing, shipped, |old(shipped)|, r.value)
      ensures r.Ok? ==> Shipment(backupSet, phase, policy, r.value) && Shipped() && old(shipped) <= shipped
      ensures r.Ok? ==> Counted(old(report), report.chunksDeduped)
      ensures r.Ok? ==> report.chunksUploaded + report.chunksDeduped
                        == old(report.chunksUploaded) + old(report.chunksDeduped) + |pending|
      ensures r.Err? ==> r.error.Sealing? && Unsealable(backupSet)
    {
      var blobs: Batch := [];
      ghost var n0 := |shipped|;
      for i := 0 to |pending|
        invariant PackedTo(pending, i, missing, shipped, n0, blobs) && Shipment(backupSet, phase, policy, blobs)
        invariant Shipped() && Counted(old(report), report.chunksDeduped) && old(shipped) <= shipped
        invariant report.chunksUploaded + report.chunksDeduped
                  == old(report.chunksUploaded) + old(report.chunksDeduped) + i
      {
        var next := PackNext(i, missing, n0, blobs);
        if next.Err? {
          return next;
        }
        blobs := next.value;
      }
      r := Ok(blobs);
    }

    /** Asks the daemon which pending chunks it misses, and ships those: then
        every pending chunk was in the index at some moment. Nothing is pending
        any more exactly when the daemon lets the question through for every
        pending chunk and gives a well-formed answer. */
    method ShipPending() returns (r: Result<(), BackupError>)
      requires Keyed() && Packable(backupSet, pending, shipped) && Shipped() && daemon.Safe(backupSet)
      modifies this`report, this`drawn, this`shipped, this`pending, counters, daemon
      ensures pending == Left(old(daemon.turns), old(pending))
      ensures r.Ok? ==> D.AllDone(old(daemon.turns), |old(pending)|) && pending == []
      ensures r.Ok? ==> daemon.Safe(backupSet) && old(daemon.run) <= daemon.run && Shipped()
      ensures r.Ok? ==> Onwards(old(pending), old(shipped), shipped)
      ensures r.Ok? ==> D.AllIndexed(daemon.h, daemon.run, |old(daemon.run)|, old(pending))
      ensures r.Ok? ==> StoredFrom(daemon.h, daemon.run, |old(daemon.run)|, shipped, |old(shipped)|)
      ensures r.Ok? ==> Counted(old(report), report.chunksDeduped)
      ensures r.Ok? ==> report.chunksUploaded + report.chunksDeduped
                        == old(report.chunksUploaded) + old(report.chunksDeduped) + |old(pending)|
      ensures D.Failures(daemon.turns) <= D.Failures(old(daemon.turns))
      ensures r.Err? ==> ShippingFails(r.error, backupSet, phase, policy, old(daemon.turns), daemon.state)
    {
      var missing := daemon.HasChunks(backupSet, Asked(pending));
      if missing.Err? {
        return Err(OfRpc(missing.error));
      }
      ghost var run1 := daemon.run;
      var blobs := PackMissing(missing.value);
      pending := [];
      if blobs.Err? {
        return Err(blobs.error);
      }
      NoneIndexed(daemon.h, daemon.run);
      ShipmentIsHonest(backupSet, phase, policy, blobs.value);
      if blobs.value != [] {
        var outcome := daemon.UploadChunks(backupSet, blobs.value);
        if outcome.Err? {
          BusyObstructs(backupSet, phase, policy, blobs.value, daemon.state);
          return Err(OfRpc(outcome.error));
        }
        if outcome.value.0 + outcome.value.1 != |blobs.value| {
          return Err(BadReply);
        }
      }
      AllSettledBy(daemon.h, old(pending), missing.value, blobs.value, old(shipped), shipped,
                   old(daemon.run), run1, daemon.run);
      r := Ok(());
    }

    /** Deduplicates the pending chunks against the daemon, ships the missing
        ones, and leaves nothing pending. */
    method Flush() returns (r: Result<(), BackupError>)
      requires Valid()
      modifies this`report, this`drawn, this`shipped, this`pending, this`pendingBytes, counters, daemon
      ensures pending == Left(old(daemon.turns), old(pending))
      ensures r.Ok? ==> D.AllDone(old(daemon.turns), |old(pending)|)
      ensures r.Ok? ==> Valid() && old(daemon.run) <= daemon.run && Counted(old(report), report.chunksDeduped)
      ensures D.Failures(daemon.turns) <= D.Failures(old(daemon.turns))
      ensures r.Err? ==> ShippingFails(r.error, backupSet, phase, policy, old(daemon.turns), daemon.state)
    {
      if pending == [] {
        return Ok(());
      }
      r := ShipPending();
      if r.Err? {
        return;
      }
      pendingBytes := 0;
      ConfirmAll(daemon.h, backupSet, old(daemon.run), daemon.run, start, seen, old(pending), old(shipped), shipped);
    }

    /** What waits for a flush between chunks stays below both limits. */
    ghost predicate Bounded()
      reads this
    {
      |pending| < BATCH_MAX_CHUNKS && pendingBytes < BATCH_MAX_BYTES
    }

    /** Queues a chunk not seen before this run. */
    method Queue(id: ChunkId, text: Bytes)
      requires Ledger() && IsChunk(backupSet, id, text) && id !in seen
      modifies this`report, this`seen, this`pending, this`pendingBytes
      ensures Ledger() && seen == old(seen) + {id} && pending == old(pending) + [(id, text)]
      ensures report == old(report).(chunksUnique := old(report.chunksUnique) + 1)
    {
      QueueStep(daemon.h, daemon.run, start, backupSet, seen, pending, shipped, (id, text));
      QueueCounts(report, seen, pending, (id, text));
      seen, report, pendingBytes, pending :=
        seen + {id}, report.(chunksUnique := report.chunksUnique + 1), pendingBytes + |text|, pending + [(id, text)];
    }

    method FlushIfFull() returns (r: Result<(), BackupError>)
      requires Valid()
      modifies this`report, this`drawn, this`shipped, this`pending, this`pendingBytes, counters, daemon
      ensures r.Ok? ==> Valid() && Bounded() && old(daemon.run) <= daemon.run && Counted(old(report), report.chunksDeduped)
      ensures D.Failures(daemon.turns) <= D.Failures(old(daemon.turns))
      ensures r.Err? ==> ShippingFails(r.error, backupSet, phase, policy, old(daemon.turns), daemon.state)
    {
      if |pending| >= BATCH_MAX_CHUNKS || pendingBytes >= BATCH_MAX_BYTES {
        r := Flush();
      } else {
        r := Ok(());
      }
    }

    /** One chunk of a file: counted, and queued if not seen before this run,
        and the queue flushed when it is long or large enough. */
    method See(text: Bytes) returns (r: Result<ChunkId, BackupError>)
      requires Valid() && Bounded() && text in backupSet.corpus
      modifies this`report, this`drawn, this`shipped, this`seen, this`pending, this`pendingBytes, counters, daemon
      ensures r.Ok? ==> Valid() && Bounded() && old(daemon.run) <= daemon.run
      ensures r.Ok? ==> r.value == p.keyed(idKey, text) && seen == old(seen) + {r.value}
      ensures r.Ok? ==> Noted(report, old(report), old(report.chunksTotal) + 1)
      ensures D.Failures(daemon.turns) <= D.Failures(old(daemon.turns))
      ensures r.Err? ==> ShippingFails(r.error, backupSet, phase, policy, old(daemon.turns), daemon.state)
    {
      var id := p.keyed(idKey, text);
      report := report.(chunksTotal := report.chunksTotal + 1);
      SameSet(seen, id);
      if id !in seen {
        Queue(id, text);
        var flushed := FlushIfFull();
        if flushed.Err? {
          return Err(flushed.error);
        }
      }
      r := Ok(id);
    }

    /** A file's chunks in order. */
    method SeeAll(parts: seq<Bytes>) returns (r: Result<(seq<ChunkId>, nat), BackupError>)
      requires Valid() && Bounded() && forall t | t in parts :: t in backupSet.corpus
      modifies this`report, this`drawn, this`shipped, this`seen, this`pending, this`pendingBytes, counters, daemon
      ensures r.Ok? ==> Valid() && Bounded() && old(daemon.run) <= daemon.run
      ensures r.Ok? ==> |r.value.0| == |parts|
      ensures r.Ok? ==> PartsDone(p, idKey, parts, r.value.0, r.value.1, old(seen), seen, old(report), report)
      ensures D.Failures(daemon.turns) <= D.Failures(old(daemon.turns))
      ensures r.Err? ==> ShippingFails(r.error, backupSet, phase, policy, old(daemon.turns), daemon.state)
    {
      var chunkIds: seq<ChunkId> := [];
      var contentLen: nat := 0;
      for j := 0 to |parts|
        invariant Valid() && Bounded() && old(daemon.run) <= daemon.run
        invariant D.Failures(daemon.turns) <= D.Failures(old(daemon.turns))
        invariant |chunkIds| == j && PartsDone(p, idKey, parts, chunkIds, contentLen, old(seen), seen, old(report), report)
      {
        ghost var seen0, report0, turns0 := seen, report, daemon.turns;
        var id := See(parts[j]);
        if id.Err? {
          FailedBefore(id.error, backupSet, phase, policy, old(daemon.turns), turns0, daemon.state);
          return Err(id.error);
        }
        PartsStep(p, idKey, parts, chunkIds, contentLen, old(seen), seen0, old(report), report0, report);
        contentLen := contentLen + |parts[j]|;
        chunkIds := chunkIds + [id.value];
      }
      r := Ok((chunkIds, contentLen));
    }

    /** One file; the recorded size is what was chunked. */
    method BackupFile(f: SourceFile) returns (r: Result<M.FileEntry, BackupError>)
      requires Valid() && Bounded() && |f.data| <= U64_MAX && forall t | t in p.cdc(f.data) :: t in backupSet.corpus
      modifies this`report, this`drawn, this`shipped, this`seen, this`pending, this`pendingBytes, counters, daemon
      ensures r.Ok? ==> Valid() && Bounded() && old(daemon.run) <= daemon.run && r.value == EntryOf(p, idKey, f)
      ensures r.Ok? ==> SeenAre(seen, old(seen), r.value.chunks)
      ensures r.Ok? ==> Noted(report, old(report).(files := old(report.files) + 1,
                                           sourceBytes := old(report.sourceBytes) + |f.data|),
                              old(report.chunksTotal) + |r.value.chunks|)
      ensures D.Failures(daemon.turns) <= D.Failures(old(daemon.turns))
      ensures r.Err? ==> ShippingFails(r.error, backupSet, phase, policy, old(daemon.turns), daemon.state)
    {
      assert Concat(backupSet.p.cdc(f.data)) == f.data;
      var all := SeeAll(p.cdc(f.data));
      if all.Err? {
        return Err(all.error);
      }
      PartsAll(p, idKey, p.cdc(f.data), all.value.0, all.value.1, old(seen), seen, old(report), report);
      Recorded(f);
      r := Ok(M.FileEntry(f.path, all.value.1, f.mtimeSecs, f.mtimeNanos, f.mode, all.value.0));
    }

    method Recorded(f: SourceFile)
      requires Valid()
      modifies this`report
      ensures Valid()
      ensures report == old(report).(files := old(report.files) + 1, sourceBytes := old(report.sourceBytes) + |f.data|)
    {
      report := report.(files := report.files + 1, sourceBytes := report.sourceBytes + |f.data|);
    }

    /** Every file in walking order. */
    method BackupFiles(source: Source) returns (r: Result<seq<M.FileEntry>, BackupError>)
      requires Valid() && seen == {} && pending == [] && report == NOTHING_YET && Walked(backupSet, source)
      modifies this`report, this`drawn, this`shipped, this`seen, this`pending, this`pendingBytes, counters, daemon
      ensures r.Ok? ==> Valid() && old(daemon.run) <= daemon.run && r.value == EntriesOf(p, idKey, source)
      ensures r.Ok? ==> FilesDone(p, idKey, source, r.value, seen, report)
      ensures D.Failures(daemon.turns) <= D.Failures(old(daemon.turns))
      ensures r.Err? ==> ShippingFails(r.error, backupSet, phase, policy, old(daemon.turns), daemon.state)
    {
      var files: seq<M.FileEntry> := [];
      for i := 0 to |source|
        invariant Valid() && Bounded() && old(daemon.run) <= daemon.run
        invariant D.Failures(daemon.turns) <= D.Failures(old(daemon.turns))
        invariant |files| == i && FilesDone(p, idKey, source, files, seen, report)
      {
        ghost var seen0, report0, turns0 := seen, report, daemon.turns;
        var entry := BackupFile(source[i]);
        if entry.Err? {
          FailedBefore(entry.error, backupSet, phase, policy, old(daemon.turns), turns0, daemon.state);
          return Err(entry.error);
        }
        FilesStep(p, idKey, source, files, seen0, report0, entry.value, seen, report);
        files := files + [entry.value];
      }
      assert files == EntriesOf(p, idKey, source);
      r := Ok(files);
    }

    /** Encodes and seals the manifest, and stores it with its references. */
    method RecordSnapshot(u: Ulid, createdAt: i64, entries: seq<M.FileEntry>)
      returns (r: Result<(), BackupError>, ghost at: nat)
      requires Keyed() && daemon.Safe(backupSet)
      modifies this`report, this`drawn, daemon
      ensures r.Ok? ==> |old(daemon.run)| < at <= |daemon.run| && Legal(daemon.h, daemon.run[..at])
      ensures r.Ok? ==> Holds(backupSet, After(daemon.h, daemon.run[..at]).t, M.Manifest(u, createdAt, entries))
      ensures r.Ok? ==> report == old(report).(manifestBytes := M.EncodedLen(M.Manifest(u, createdAt, entries)) + P.BLOB_OVERHEAD)
      ensures D.Failures(daemon.turns) <= D.Failures(old(daemon.turns))
      ensures daemon.Safe(backupSet) && old(daemon.run) <= daemon.run
      ensures r.Err? ==> RecordingFails(r.error, backupSet, old(daemon.turns), daemon.h, daemon.run, daemon.state,
                                        |old(daemon.run)|, at, M.Manifest(u, createdAt, entries))
    {
      at := 0;
      var m := M.Manifest(u, createdAt, entries);
      var encoded := M.Encode(m);
      if encoded.Err? {
        return Err(Encoding(encoded.error)), at;
      }
      var sealed := P.Seal(p, key, M.UlidBytes(u), encoded.value, rng(drawn));
      P.SealThenOpen(p, key, M.UlidBytes(u), encoded.value, rng(drawn));
      MC.EncodedSizeIsExact(m);
      drawn := drawn + 1;
      if sealed.Err? {
        return Err(Sealing(sealed.error)), at;
      }
      report := report.(manifestBytes := |sealed.value|);
      var stored;
      stored, at := daemon.PutManifest(backupSet, u, sealed.value, M.ChunkRefs(entries));
      if stored.Err? {
        PutManifestFails(stored.error, backupSet, old(daemon.turns), daemon.h, daemon.run, daemon.state,
                         |old(daemon.run)|, at, m, sealed.value);
        return Err(OfRpc(stored.error)), at;
      }
      r := Ok(());
    }

    /** Every file chunked and every chunk shipped or found present. */
    method ShipFiles(source: Source) returns (r: Result<seq<M.FileEntry>, BackupError>)
      requires Valid() && seen == {} && pending == [] && report == NOTHING_YET && Walked(backupSet, source)
      modifies this`report, this`drawn, this`shipped, this`seen, this`pending, this`pendingBytes, counters, daemon
      ensures r.Ok? ==> Keyed() && daemon.Safe(backupSet) && old(daemon.run) <= daemon.run
      ensures r.Ok? ==> r.value == EntriesOf(p, idKey, source)
      ensures r.Ok? ==> Shipments(p, phase, policy, M.ChunkRefs(r.value), source, report, shipped)
      ensures r.Ok? ==> AllWereIndexed(daemon.h, daemon.run, start, M.ChunkRefs(r.value))
      ensures r.Ok? ==> start <= |daemon.run| && StoredFrom(daemon.h, daemon.run, start, shipped, 0)
      ensures D.Failures(daemon.turns) <= D.Failures(old(daemon.turns))
      ensures r.Err? ==> ShippingFails(r.error, backupSet, phase, policy, old(daemon.turns), daemon.state)
    {
      var files := BackupFiles(source);
      if files.Err? {
        return files;
      }
      ghost var chunked, turns0 := report, daemon.turns;
      var flushed := Flush();
      if flushed.Err? {
        FailedBefore(flushed.error, backupSet, phase, policy, old(daemon.turns), turns0, daemon.state);
        return Err(flushed.error);
      }
      AllSettled(p, idKey, phase, policy, source, files.value, seen, chunked, report, counters.View(), shipped);
      AllConfirmed(daemon.h, daemon.run, start, seen, shipped, M.ChunkRefs(files.value));
      report := report.(compression := counters.View());
      r := files;
    }

    /** A whole backup: on success the snapshot is in the daemon's tables when
        the run is `at` steps long, holding exactly this backup of `source`.
        And every failure is explained: see `BackupFails`. */
    method RunBackup(u: Ulid, createdAt: i64, source: Source) returns (r: Result<Report, BackupError>, ghost at: nat)
      requires Valid() && seen == {} && pending == [] && report == NOTHING_YET && Walked(backupSet, source)
      modifies this`report, this`drawn, this`shipped, this`seen, this`pending, this`pendingBytes, counters, daemon
      ensures r.Ok? ==> daemon.Safe(backupSet) && |old(daemon.run)| < at <= |daemon.run|
      ensures r.Ok? ==> Legal(daemon.h, daemon.run[..at])
      ensures r.Ok? ==> Stores(backupSet, After(daemon.h, daemon.run[..at]).t, u, createdAt, source)
      ensures r.Ok? ==> r.value == report && Accounts(p, idKey, phase, policy, source, r.value, shipped)
      ensures r.Ok? ==> AllWereIndexed(daemon.h, daemon.run, start, M.ChunkRefs(EntriesOf(p, idKey, source)))
      ensures D.Failures(daemon.turns) <= D.Failures(old(daemon.turns))
      ensures r.Err? ==> BackupFails(r.error, backupSet, phase, policy, old(daemon.turns), daemon.h, daemon.run, daemon.state,
                                     start, at, shipped, M.Manifest(u, createdAt, EntriesOf(p, idKey, source)))
    {
      at := 0;
      var files := ShipFiles(source);
      if files.Err? {
        return Err(files.error), at;
      }
      ghost var before, turns0 := daemon.run, daemon.turns;
      var stored;
      stored, at := RecordSnapshot(u, createdAt, files.value);
      if stored.Err? {
        RecordingExplained(stored.error, backupSet, phase, policy, old(daemon.turns), turns0, daemon.h, before, daemon.run,
                           daemon.state, start, at, shipped, M.Manifest(u, createdAt, files.value));
        return Err(stored.error), at;
      }
      D.IndexedLater(daemon.h, before, daemon.run, start);
      r := Ok(report);
    }
  }

  /** One pending chunk and a daemon that garbles its answer: the flush fails
      and drains nothing. */
  method FlushLeavesPending(ghost c: BackupSet, h: Hash, p: P.Primitives, key: P.Key, idKey: P.Key, rng: nat -> P.Nonce,
                            phase: Z.Phase, policy: Z.PolicyConfig, text: Bytes)
    returns (session: Session, r: Result<(), BackupError>)
    requires c.p == p && c.key == key && c.idKey == idKey && Sound(c) && text in c.corpus
    ensures r.Err? && session.pending == [(p.keyed(idKey, text), text)]
  {
    var daemon := new D.Daemon(h, [D.Turn([], D.Garbled)]);
    session := new Session(c, p, key, idKey, rng, phase, policy, daemon);
    session.Queue(p.keyed(idKey, text), text);
    NoneLeft(daemon.turns, session.pending);
    r := session.Flush();
  }

  /** One of the references, missing when the manifest's turn came. */
  ghost predicate MissingAt(h: Hash, run: Run, from: nat, at: nat, refs: seq<ChunkId>, id: ChunkId) {
    from < at <= |run| && id in refs && D.AbsentAt(h, run, at - 1, id)
  }

  /** A snapshot of that ULID was stored when the manifest's turn came. */
  ghost predicate TakenAt(h: Hash, run: Run, from: nat, at: nat, u: Ulid) {
    from < at <= |run| && Legal(h, run[..at - 1]) && u in After(h, run[..at - 1]).t.snapshots
  }

  /** The store cannot begin the snapshot's transaction, or a counter would
      pass 64 bits. */
  ghost predicate Unfit(s: State, refs: seq<ChunkId>) {
    !s.writer.Idle? || !R.CountsFit(RowsOf(s.t), refs)
  }

  /** Recording a manifest fails only because it does not encode, sealing it
      does not work, a turn fails, the store cannot take it, or it refuses it:
      for a ULID that is taken, or a chunk that is missing. */
  ghost predicate RecordingFails(e: BackupError, c: BackupSet, turns: seq<D.Turn>, h: Hash, run: Run, s: State,
                                 from: nat, at: nat, m: M.Manifest)
  {
    match e
    case Encoding(x) => M.Encode(m) == Err(x)
    case Sealing(_) => Unsealable(c)
    case BadReply => false
    case Rpc(Failed) => !D.NoFailures(turns) || Unfit(s, M.ChunkRefs(m.files))
    case Rpc(Malformed) => false
    case Rpc(Rejected(x)) =>
      match x
      case SnapshotExists(u) => u == m.snapshotId && TakenAt(h, run, from, at, u)
      case UnknownChunkRef(_, id) => MissingAt(h, run, from, at, M.ChunkRefs(m.files), id)
      case _ => false
  }

  lemma PutManifestFails(e: D.RpcError, c: BackupSet, turns: seq<D.Turn>, h: Hash, run: Run, s: State, from: nat, at: nat,
                         m: M.Manifest, blob: Bytes)
    requires !e.Malformed?
    requires e.Failed? && D.NoFailures(turns) ==> !Enabled(h, s, PutSnap(m.snapshotId, blob, M.ChunkRefs(m.files)))
    requires e.Rejected? ==> from < at && D.RejectedAt(h, run, at, m.snapshotId, blob, M.ChunkRefs(m.files), e.e)
    ensures RecordingFails(OfRpc(e), c, turns, h, run, s, from, at, m)
  {
    if e.Rejected? {
      R.PutSnapshotOkIff(After(h, run[..at - 1]).t, m.snapshotId, blob, M.ChunkRefs(m.files));
    }
  }

  /** Every way a backup can fail. If no turn fails, everything seals, the
      manifest encodes, its ULID is free and its counts fit, and the store can
      begin every write, then only a chunk that is missing is left: a `gc` took
      it since the backup began; and if every `gc` came before its grace had
      passed since then, it acted on a mark older than the backup, and the
      chunk is none of those shipped. */
  ghost predicate BackupFails(e: BackupError, c: BackupSet, phase: Z.Phase, cfg: Z.PolicyConfig, turns: seq<D.Turn>,
                              h: Hash, run: Run, s: State, start: nat, at: nat, shipped: Batch, m: M.Manifest)
  {
    match e
    case Rpc(Rejected(UnknownChunkRef(_, id))) =>
      && MissingAt(h, run, start, at, M.ChunkRefs(m.files), id)
      && (G.NoDelete(run) ==> Swept(h, run, start, at, shipped, id))
    case _ => ShippingFails(e, c, phase, cfg, turns, s) || RecordingFails(e, c, turns, h, run, s, start, at, m)
  }

  lemma RecordingExplained(e: BackupError, c: BackupSet, phase: Z.Phase, cfg: Z.PolicyConfig, turns: seq<D.Turn>,
                           turns0: seq<D.Turn>, h: Hash, run0: Run, run: Run, s: State, start: nat, at: nat, shipped: Batch,
                           m: M.Manifest)
    requires D.Failures(turns0) <= D.Failures(turns)
    requires Legal(h, run) && run0 <= run && start <= |run0|
    requires AllWereIndexed(h, run0, start, M.ChunkRefs(m.files)) && StoredFrom(h, run0, start, shipped, 0)
    requires RecordingFails(e, c, turns0, h, run, s, |run0|, at, m)
    ensures BackupFails(e, c, phase, cfg, turns, h, run, s, start, at, shipped, m)
  {
    if e.Rpc? && e.e.Rejected? && e.e.e.UnknownChunkRef? && G.NoDelete(run) {
      MissingIsSwept(h, run0, run, start, at, M.ChunkRefs(m.files), shipped, e.e.e.chunk);
    }
  }

  ghost predicate Swept(h: Hash, run: Run, start: nat, at: nat, shipped: Batch, id: ChunkId) {
    && at > 0 && W.LostSince(h, run, start, at - 1, id)
    && (W.Quick(h, run, start) ==> !Has(shipped, |shipped|, id))
  }

  lemma MissingIsSwept(h: Hash, run0: Run, run: Run, start: nat, at: nat, refs: seq<ChunkId>, shipped: Batch, id: ChunkId)
    requires Legal(h, run) && G.NoDelete(run) && run0 <= run && MissingAt(h, run, |run0|, at, refs, id)
    requires AllWereIndexed(h, run0, start, refs) && StoredFrom(h, run0, start, shipped, 0)
    ensures Swept(h, run, start, at, shipped, id)
  {
    var i :| 0 <= i < |refs| && refs[i] == id;
    assert D.WasIndexed(h, run0, start, refs[i]);
    W.MissingWasLost(h, run0, run, start, at - 1, id);
  }

  /** Each was in the daemon's index at some moment since the backup began. */
  ghost predicate AllWereIndexed(h: Hash, run: Run, start: nat, ids: seq<ChunkId>) {
    forall i | 0 <= i < |ids| :: D.WasIndexed(h, run, start, ids[i])
  }

  lemma AllConfirmed(h: Hash, run: Run, start: nat, seen: set<ChunkId>, shipped: Batch, refs: seq<ChunkId>)
    requires Confirmed(h, run, start, seen, [], shipped) && SeenAre(seen, {}, refs)
    ensures AllWereIndexed(h, run, start, refs)
  {
    forall i | 0 <= i < |refs|
      ensures D.WasIndexed(h, run, start, refs[i])
    {
      assert refs[i] in seen;
    }
  }

  function SourceBytes(source: Source): nat {
    if source == [] then 0 else SourceBytes(source[..|source| - 1]) + |source[|source| - 1].data|
  }

  /** What a successful run reports of chunks: files and bytes of the source;
      one total per reference of the manifest; one unique per distinct
      reference, each either uploaded or deduplicated; the bytes and counters
      the compression simulator gives for the chunks shipped, none of them
      twice. */
  ghost predicate Shipments(p: P.Primitives, phase: Z.Phase, cfg: Z.PolicyConfig, refs: seq<ChunkId>, source: Source,
                            r: Report, shipped: Batch)
  {
    && r.files == |source| && r.sourceBytes == SourceBytes(source)
    && r.chunksTotal == |refs|
    && r.chunksUnique == |set id | id in refs| == r.chunksUploaded + r.chunksDeduped
    && ShippedOnce(p, phase, cfg, shipped, r.chunksUploaded, r.uploadBytes, r.compression)
  }

  /** The whole report, with the size of the manifest's blob. */
  ghost predicate Accounts(p: P.Primitives, idKey: P.Key, phase: Z.Phase, cfg: Z.PolicyConfig, source: Source,
                           r: Report, shipped: Batch)
    requires Sizes(source)
  {
    var entries := EntriesOf(p, idKey, source);
    && Shipments(p, phase, cfg, M.ChunkRefs(entries), source, r, shipped)
    && r.manifestBytes == M.EncodedLen(M.Manifest(0, 0, entries)) + P.BLOB_OVERHEAD
  }

  /** From the reports after the files and after the last flush. */
  lemma AllSettled(p: P.Primitives, idKey: P.Key, phase: Z.Phase, cfg: Z.PolicyConfig, source: Source,
                   entries: seq<M.FileEntry>, seen: set<ChunkId>, chunked: Report, settled: Report,
                   counters: Z.Counters, shipped: Batch)
    requires Sizes(source) && entries == EntriesOf(p, idKey, source) && FilesDone(p, idKey, source, entries, seen, chunked)
    requires settled.files == chunked.files && settled.sourceBytes == chunked.sourceBytes
    requires settled.chunksTotal == chunked.chunksTotal && Balanced(settled, seen, [])
    requires ShippedOnce(p, phase, cfg, shipped, settled.chunksUploaded, settled.uploadBytes, counters)
    ensures Shipments(p, phase, cfg, M.ChunkRefs(entries), source, settled.(compression := counters), shipped)
    ensures SeenAre(seen, {}, M.ChunkRefs(entries))
  {
    SetOfRefs(seen, M.ChunkRefs(entries));
    assert source[..|source|] == source;
  }

  lemma SetOfRefs(seen: set<ChunkId>, refs: seq<ChunkId>)
    requires SeenAre(seen, {}, refs)
    ensures seen == set id | id in refs
  {}

  lemma QueueStep(h: Hash, run: Run, start: nat, c: BackupSet, seen: set<ChunkId>, pending: Batch, shipped: Batch,
                  last: (ChunkId, Bytes))
    requires last.0 !in seen && IsChunk(c, last.0, last.1)
    ensures Packable(c, pending, shipped) && Confirmed(h, run, start, seen, pending, shipped) ==>
              Packable(c, pending + [last], shipped) && Confirmed(h, run, start, seen + {last.0}, pending + [last], shipped)
  {
    if Packable(c, pending, shipped) && Confirmed(h, run, start, seen, pending, shipped) {
      var pending' := pending + [last];
      assert pending'[|pending|].0 == last.0;
      forall id | Has(pending, |pending|, id)
        ensures Has(pending', |pending'|, id)
      {
        var i :| 0 <= i < |pending| && pending[i].0 == id;
        assert pending'[i].0 == id;
      }
    }
  }

  lemma SameSet(seen: set<ChunkId>, id: ChunkId)
    ensures id in seen ==> seen + {id} == seen
  {}

  lemma QueueCounts(report: Report, seen: set<ChunkId>, pending: Batch, last: (ChunkId, Bytes))
    requires Balanced(report, seen, pending) && last.0 !in seen
    ensures Balanced(report.(chunksUnique := report.chunksUnique + 1), seen + {last.0}, pending + [last])
    ensures BatchBytes(pending + [last]) == BatchBytes(pending) + |last.1|
  {
    assert (pending + [last])[..|pending|] == pending;
  }

  /** What was shipped after `before` are pending chunks. */
  ghost predicate Onwards(pending: Batch, before: Batch, after: Batch) {
    before <= after && forall k | |before| <= k < |after| :: Has(pending, |pending|, after[k].0)
  }

  lemma Continued(pending: Batch, missing: set<ChunkId>, before: Batch, after: Batch, blobs: Batch)
    requires before <= after && PackedTo(pending, |pending|, missing, after, |before|, blobs)
    ensures Onwards(pending, before, after)
  {
    forall k | |before| <= k < |after|
      ensures Has(pending, |pending|, after[k].0)
    {
      var j := k - |before|;
      assert blobs[j].0 == after[|before| + j].0;
    }
  }

  lemma NoneIndexed(h: Hash, run: Run)
    ensures D.AllIndexed(h, run, |run|, [])
  {}

  /** A pending chunk was reported present, or its blob was acknowledged. */
  lemma PendingIndexed(h: Hash, pending: Batch, missing: set<ChunkId>, blobs: Batch, run0: Run, run1: Run, run2: Run)
    requires run0 <= run1 <= run2
    requires D.Answers(h, run1, |run0|, Asked(pending), missing) && D.AllIndexed(h, run2, |run1|, blobs)
    requires forall k | 0 <= k < |pending| && pending[k].0 in missing :: Has(blobs, |blobs|, pending[k].0)
    ensures D.AllIndexed(h, run2, |run0|, pending)
  {
    D.IndexedLater(h, run1, run2, |run0|);
    forall i | 0 <= i < |pending|
      ensures D.WasIndexed(h, run2, |run0|, pending[i].0)
    {
      var id := pending[i].0;
      if id in missing {
        var j :| 0 <= j < |blobs| && blobs[j].0 == id;
        var n :| |run1| <= n <= |run2| && D.IndexedAt(h, run2, n, id);
      } else {
        assert Asked(pending)[i] == id;
      }
    }
  }

  /** What was shipped was reported missing first, and acknowledged after. */
  lemma NewlyStored(h: Hash, ids: seq<ChunkId>, missing: set<ChunkId>, before: Batch, after: Batch, blobs: Batch,
                    run0: Run, run1: Run, run2: Run)
    requires run0 <= run1 <= run2 && before <= after && |after| == |before| + |blobs|
    requires forall k | 0 <= k < |blobs| :: blobs[k].0 == after[|before| + k].0 && blobs[k].0 in missing
    requires D.Answers(h, run1, |run0|, ids, missing) && D.AllIndexed(h, run2, |run1|, blobs)
    ensures StoredFrom(h, run2, |run0|, after, |before|)
  {
    forall k | |before| <= k < |after|
      ensures after[k].0 in W.StoredIds(h, run2, |run0|)
    {
      var j := k - |before|;
      assert blobs[j].0 == after[|before| + j].0;
      W.StoredBetween(h, run1, run2, |run0|, blobs[j].0);
    }
  }

  lemma AllSettledBy(h: Hash, pending: Batch, missing: set<ChunkId>, blobs: Batch, before: Batch, after: Batch,
                     run0: Run, run1: Run, run2: Run)
    requires run0 <= run1 <= run2 && before <= after
    ensures PackedTo(pending, |pending|, missing, after, |before|, blobs)
            && D.Answers(h, run1, |run0|, Asked(pending), missing) && D.AllIndexed(h, run2, |run1|, blobs) ==>
              && Onwards(pending, before, after) && D.AllIndexed(h, run2, |run0|, pending)
              && StoredFrom(h, run2, |run0|, after, |before|)
  {
    if PackedTo(pending, |pending|, missing, after, |before|, blobs)
       && D.Answers(h, run1, |run0|, Asked(pending), missing) && D.AllIndexed(h, run2, |run1|, blobs) {
      Continued(pending, missing, before, after, blobs);
      PendingIndexed(h, pending, missing, blobs, run0, run1, run2);
      NewlyStored(h, Asked(pending), missing, before, after, blobs, run0, run1, run2);
    }
  }

  lemma AllStored(h: Hash, run0: Run, run: Run, start: nat, before: Batch, after: Batch)
    requires run0 <= run && before <= after && start <= |run0|
    requires StoredFrom(h, run0, start, before, 0) && StoredFrom(h, run, |run0|, after, |before|)
    ensures StoredFrom(h, run, start, after, 0)
  {
    forall k | 0 <= k < |after|
      ensures after[k].0 in W.StoredIds(h, run, start)
    {
      if k < |before| {
        W.StoredLater(h, run0, run, start, before[k].0);
      } else {
        W.StoredEarlier(h, run, start, |run0|, after[k].0);
      }
    }
  }

  lemma ConfirmAll(h: Hash, c: BackupSet, run0: Run, run: Run, start: nat, seen: set<ChunkId>, pending: Batch,
                   before: Batch, after: Batch)
    requires run0 <= run
    ensures Confirmed(h, run0, start, seen, pending, before) && Onwards(pending, before, after)
            && D.AllIndexed(h, run, |run0|, pending) && StoredFrom(h, run, |run0|, after, |before|) ==>
              Confirmed(h, run, start, seen, [], after) && Packable(c, [], after)
  {
    if Confirmed(h, run0, start, seen, pending, before) && Onwards(pending, before, after)
       && D.AllIndexed(h, run, |run0|, pending) && StoredFrom(h, run, |run0|, after, |before|) {
      ConfirmSeen(h, run0, run, start, seen, pending, before);
      AllStored(h, run0, run, start, before, after);
    }
  }

  lemma ConfirmSeen(h: Hash, run0: Run, run: Run, start: nat, seen: set<ChunkId>, pending: Batch, before: Batch)
    requires run0 <= run && Confirmed(h, run0, start, seen, pending, before)
    requires D.AllIndexed(h, run, |run0|, pending)
    ensures forall id | id in seen :: D.WasIndexed(h, run, start, id)
  {
    D.IndexedLater(h, run0, run, start);
    forall id | id in seen && Has(pending, |pending|, id)
      ensures D.WasIndexed(h, run, start, id)
    {
      var i :| 0 <= i < |pending| && pending[i].0 == id;
      var n :| |run0| <= n <= |run| && D.IndexedAt(h, run, n, id);
    }
  }
}
