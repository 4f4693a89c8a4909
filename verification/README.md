# BusyNCR: a verified model

BusyNCR backs files up to a daemon that deduplicates encrypted chunks, prunes
old snapshots by an exponential grid and reclaims unreferenced chunks after a
grace period. This project models that behaviour in Dafny and proves what the
system promises of it. `dafny verify dfyconfig.toml` checks everything.

## What is modelled

- **The chunk store.** `Tables` has the index tables and each write
  transaction as a function; `RefCounts` proves reference counts exact through
  the stored 32-byte reference rows. `Machine` is the store as a state machine
  whose steps are the sub-steps of a chunk write, snapshot transactions, a
  prune's listing and each of its deletions, a gc's transaction and each of its
  unlinks, the clock, and a crash between any two of them. `StoreSafety`,
  `GarbageCollection` and `Coverage` prove what holds after every run of it.
  `ChunkStore` is the same store imperatively, over tables of raw bytes and a
  directory of files, each method proved equal to those functions and steps.
  `Witnesses` has concrete histories in which a documented promise fails.
- **The retention grid.** `Retention` (the plan, its loop and what it means),
  `Coverage` (whole histories of prunes), `RetainedCount` (how many survive).
- **Client and daemon.** `Daemon` is the daemon as one client sees it: before
  each look at the store, others (backups, prunes, gcs, crashes) may move it
  on, and any call may be refused, lose its reply, get a malformed one or get
  bytes that were never stored. `Backup` and `Restore` are the two client runs
  against it, `GraceWindow` what a gc can take from a backup under way,
  `Protocol` and `Restoring` the laws that connect them, `Compression` the
  policy engine, `PolicyBench` its simulator.
- **Formats.** `Manifest`, `ManifestCodec`, `ManifestIO`, `Keyfile`, `Index`,
  `ChunkIds`, `Base64`, `Calendar`.
- **Key files** (`Keys`, and `KeyHistory` for which keys stay together) and the **concurrent fan-out** of the sizing tool
  (`FanOut`).

`Bytes`, `Division`, `Utf8`, `Wrappers` and `Primitives` hold what these share.

## How it is modelled

- The AEAD, key derivation, keyed hash, zstd, lz4 and the chunker are function
  parameters constrained by stated laws (`Primitives.Lawful`: opening undoes
  sealing, decompression undoes compression, chunks concatenate to the file).
  `PaddingIsLawful` shows the laws can be met. No hash of 32 bytes is injective,
  so the keyed hash is only taken to be collision-free on the plaintexts one
  backup set ever backs up.
- Where a theorem says so, the daemon is trusted (`Daemon.Safe`): uploads under
  an identity of the backup set are blobs of that chunk (`Protocol.Honest`) and
  replies are the daemon's own. What a restore checks, it checks of any daemon.
- zstd gives at least one byte for every chunk (`PolicyBench.RawOnlyIff` shows
  this is needed for the raw-only policy).
- A write transaction commits whole or not at all and writers are serialized,
  as redb does. A put of a chunk is refused while its file waits to be unlinked
  (the shipped gc is a separate process that holds the store alone);
  `UnlinkKeepsStoreIff` shows this is needed.
- A snapshot is only stored while its references fit a 64-bit counter;
  `PutSnapshotExactIff` shows this is needed.
- Random bytes, clocks and unique file names are parameters. Counters of
  reports are unbounded integers; stored integers have their width.

## What the code does not do as documented

- A gc mark means "unreferenced at every gc since the mark", not "continuously
  unreferenced" (crates/busyncr-daemon/src/store.rs:69-73). It is the latter
  exactly when no snapshot naming the chunk was stored after the gc that set
  the mark (`ContinuouslyUnreferencedIff`); `ReferencedWithinGrace` is a run in
  which a chunk is reclaimed though it was referenced within the grace.
- `delete_chunk` leaves a chunk's mark behind, so the chunk stored again is
  reclaimed at once exactly when that mark is old enough (`StaleMarkAfterDelete`,
  reached in `ReclaimedWhenStored`). No shipped command calls it; the grace
  theorems are about runs without it.
- The fallback for a refused rename assumes equal bytes, which two encryptions
  of one chunk are not (`RenameFallbackIff`, reached in
  `RenameRefusedAfterCrash`).
- "Never negative" savings need a keep threshold of at most one
  (`NeverGrowsIff`), which the shipped infinite threshold is not.
- The projected number of retained snapshots bounds the plan exactly when no
  tier's window straddles its cells at that instant
  (`ProjectionHoldsWhenAligned`); otherwise it can be exceeded, by at most one a
  tier (`ProjectionCanBeExceeded`, `KeptWithinProjection`).
- A flush is said to drain the pending chunks in all cases; it does exactly when
  the daemon answers the HasChunks call and every identity in the answer is
  well-formed (`Session.ShipPending`, `FlushLeavesPending`).
- A replaced pair of keys is said to be preserved together; it is, exactly if the
  import does not stop between its two renames (`PairsStayTogetherIff`,
  `SplitByImports`). And `ensure_data_key` completes a lone key with a fresh
  partner, so the live keys need not be a pair that was generated or imported
  together (`PairsAreBornTogetherIff`, `MixedByEnsure`).
- `pem_to_der` joins every line that is not a marker rather than reading the
  first block (`FirstBlockIff`, `ExplanationIsJoined`).

## Model

| member | source | states |
|---|---|---|
| ChunkStore.ChunkStore.PutChunk | crates/busyncr-daemon/src/store.rs:316-334 | a new chunk is indexed at refcount zero with its length and its object file is hash then blob; an indexed one is untouched; a failed write leaves the index as it was |
| ChunkStore.ChunkStore.WriteObject | crates/busyncr-daemon/src/store.rs:338-372 | temporary file, then rename over whatever the object path holds; a refused rename with a file already there discards the new bytes and reports success |
| ChunkStore.ChunkStore.GetChunk | crates/busyncr-daemon/src/store.rs:385-425 | returns what the read function of module StoreSafety returns, missing, truncated and corrupt files told apart |
| ChunkStore.ChunkStore.PutSnapshotAs | crates/busyncr-daemon/src/store.rs:487-534 | over raw 16-byte records: commits exactly the transaction of module Tables or leaves every table as it was, with the reason |
| ChunkStore.ChunkStore.DeleteSnapshot | crates/busyncr-daemon/src/store.rs:609-649 | re-splits the stored reference row and gives back one reference per whole identity; refuses an absent snapshot with nothing changed |
| ChunkStore.ChunkStore.ZeroRefChunks | crates/busyncr-daemon/src/store.rs:657-671 | exactly the indexed chunks at refcount zero, each once |
| ChunkStore.ChunkStore.DeleteChunk | crates/busyncr-daemon/src/store.rs:684-710 | removes an unreferenced chunk and its file; refuses an absent or referenced one with nothing changed; a file that cannot be unlinked stays as an orphan, with the error, the record gone |
| ChunkStore.ChunkStore.Gc | crates/busyncr-daemon/src/store.rs:800-890 | the whole new index is that of the gc transaction, even when an unlink fails; every file unlinked is a reclaimable chunk's; on success exactly those of all reclaimable chunks, bytes before = bytes after + bytes reclaimed, and pending is the number of marks; a failure names a reclaimable chunk's file |
| ChunkStore.Reconcile | crates/busyncr-daemon/src/store.rs:828-841 | the pass over the marks condemns exactly the reclaimable chunks, with their lengths, keeps the waiting marks and drops the stale ones |
| ChunkStore.ChunkStore.Prune | crates/busyncr-daemon/src/store.rs:733-757 | drops what the plan of the ascending listing drops, one deletion each |
| ChunkStore.ChunkStore.GetStatus | crates/busyncr-daemon/src/store.rs:908-960 | counts of snapshots, chunks and zero-ref chunks, and the sum of all chunk lengths |
| ChunkStore.RawIsCanonical | crates/busyncr-daemon/src/store.rs:1083-1089 | tables of the right widths hold exactly the encodings of what they decode to |
| ChunkStore.PruneRemovesTheDrops | crates/busyncr-daemon/src/store.rs:733-757 | a prune removes the dropped snapshots and no other, keeps every other blob, every chunk and mark, and every count exact |
| ChunkStore.PutChunkIsItsSteps | crates/busyncr-daemon/src/store.rs:316-372 | the machine's four sub-steps of a chunk write, undisturbed, do what PutChunk does |
| ChunkStore.PruneIsItsSteps | crates/busyncr-daemon/src/store.rs:740-750 | the machine's prune steps, undisturbed, do what Prune does |
| ChunkStore.GcIsItsSteps | crates/busyncr-daemon/src/store.rs:865-885 | the machine's gc transaction and unlinks, undisturbed, leave the tables and files Gc leaves |
| Machine.Ascending | crates/busyncr-daemon/src/store.rs:583-597 | the listing has every stored snapshot once, in ascending order |
| Tables.SplitJoin | crates/busyncr-daemon/src/store.rs:516-521 | the stored row of a reference list splits back into exactly that list |
| Tables.BumpCounts | crates/busyncr-daemon/src/store.rs:500-515 | taking references succeeds exactly when every identity is indexed, and adds each one's number of occurrences, up to saturation |
| Tables.UnbumpCounts | crates/busyncr-daemon/src/store.rs:628-645 | giving references back subtracts each identity's number of occurrences, down to zero, and changes no length |
| RefCounts.PutSnapshotOkIff | crates/busyncr-daemon/src/store.rs:495-505 | a snapshot is stored exactly when its ULID is free and every chunk it names is indexed; a refusal names the reason |
| RefCounts.PutSnapshotExactIff | crates/busyncr-daemon/src/store.rs:500-515 | after storing a snapshot every refcount is the number of occurrences of its chunk, duplicates counted, if and only if no counter had to saturate |
| RefCounts.DeleteSnapshotExact | crates/busyncr-daemon/src/store.rs:609-649 | deleting a snapshot keeps every refcount exact |
| RefCounts.DeleteUndoesPut | crates/busyncr-daemon/src/store.rs:600-605 | deleting a snapshot just stored gives back the very tables there were before |
| RefCounts.PutChunkExact | crates/busyncr-daemon/src/store.rs:316-334 | storing a chunk keeps every refcount exact |
| RefCounts.DropUnreferencedExact | crates/busyncr-daemon/src/store.rs:852-857 | removing unreferenced chunks keeps every refcount exact |
| StoreSafety.StepKeepsInv | crates/busyncr-daemon/src/store.rs:293-372 | every step keeps the invariant: exact counts, and for every indexed chunk an object file that is hash-of-blob then blob, of the indexed length |
| StoreSafety.RunKeepsInv | crates/busyncr-daemon/src/store.rs:316-890 | the invariant holds after every run from the empty store: any interleaving of writes, snapshots, prunes, gcs, deletions, unlinks, sweeps and crashes between any two sub-steps |
| StoreSafety.GetChunkOkIff | crates/busyncr-daemon/src/store.rs:385-425 | a read returns bytes if and only if the file is their hash and themselves at the indexed length |
| StoreSafety.ReadsAreExact | crates/busyncr-daemon/src/store.rs:306-310 | in every reachable state an indexed chunk reads as exactly the bytes it was stored with, and any other identity is reported absent |
| StoreSafety.UnlinkKeepsStoreIff | crates/busyncr-daemon/src/store.rs:870-884 | an unlink after the commit keeps the store whole if and only if the chunk has not been stored again |
| StoreSafety.RenameFallbackIff | crates/busyncr-daemon/src/store.rs:357-367 | committing after a refused rename keeps the store whole if and only if the old file holds the same bytes |
| Witnesses.RenameRefusedAfterCrash | crates/busyncr-daemon/src/store.rs:357-367 | a legal run with a crash that reaches the fallback with different bytes: the committed chunk then reads as the first encryption, or as an error if the two differ in length |
| GarbageCollection.RunKeepsMarksOk | crates/busyncr-daemon/src/store.rs:67-74 | after every run without delete_chunk a mark exists only for an indexed chunk, is no older than the chunk, and dates from a gc since which every gc found the chunk unreferenced |
| GarbageCollection.GcHonoursGrace | crates/busyncr-daemon/src/store.rs:775-798 | over whole runs: a reclaimed chunk's mark is at least the grace old, every gc since the mark found it unreferenced, and a chunk stored more recently than the grace survives |
| GarbageCollection.GcSoundAndComplete | crates/busyncr-daemon/src/store.rs:800-890 | what is gone was reclaimable and nothing else; the marks are exactly the remaining zero-ref chunks; bytes are conserved |
| GarbageCollection.TwoGcsLeaveTheReachable | crates/busyncr-daemon/src/store.rs:775-798 | two gcs at least the grace apart with nothing between leave exactly the chunks listed snapshots name |
| GarbageCollection.ContinuouslyUnreferencedIff | crates/busyncr-daemon/src/store.rs:68-73 | over every run without delete_chunk: a reclaimed chunk has had refcount zero in every state since the gc that set its mark if and only if no snapshot naming it was stored after that gc |
| Witnesses.ReferencedWithinGrace | crates/busyncr-daemon/src/store.rs:775-798 | a legal run that reclaims a chunk which a snapshot stored less than the grace ago had named |
| GarbageCollection.StaleMarkAfterDelete | crates/busyncr-daemon/src/store.rs:684-710 | a chunk deleted by delete_chunk and stored again is reclaimed by the next gc exactly when its left-over mark is old enough |
| Witnesses.ReclaimedWhenStored | crates/busyncr-daemon/src/store.rs:684-710 | a legal run, with delete_chunk, that reclaims a chunk stored less than the grace ago |
| GraceWindow.StoredIsKept | crates/busyncr-daemon/src/store.rs:780-787 | in every run without delete_chunk a chunk that came into the index since a moment stays in it as long as every gc since comes before its grace has passed |
| GraceWindow.MissingWasLost | crates/busyncr-daemon/src/store.rs:780-787 | a chunk indexed at some moment and missing later was reclaimed by a gc in between; if that gc came in time its mark was older than the moment, and the chunk is none of those stored since |
| Retention.FromTiers | crates/busyncr-core/src/retention.rs:129-143 | a grid is accepted exactly when it has a tier and none is bad; otherwise the first bad tier is named |
| Retention.TierFor | crates/busyncr-core/src/retention.rs:153-164 | the first tier whose age limit exceeds the age, else the last |
| Retention.ComputePlan | crates/busyncr-core/src/retention.rs:186-226 | the map-building loop computes the plan in which exactly the entries that beat all others of their cell are kept, in input order |
| Retention.OneSurvivorPerCell | crates/busyncr-core/src/retention.rs:186-226 | each occupied cell has exactly one survivor, newer than or as new as and later in the input than every other entry of the cell |
| Retention.DroppedIff | crates/busyncr-core/src/retention.rs:186-226 | an entry is dropped exactly when another of its cell beats it, and then the survivor does |
| Retention.PlanSplits | crates/busyncr-core/src/retention.rs:166-172 | keep and drop are complementary subsequences of the input |
| Retention.ReplanKeepsSurvivors | crates/busyncr-core/src/retention.rs:337-359 | planning the survivors again at the same instant drops nothing |
| RetainedCount.SteadyStateSnapshots | crates/busyncr-core/src/bench.rs:69-82 | the loop counts the cells the tiers carve out of the horizon |
| RetainedCount.SameGrid | crates/busyncr-core/src/bench.rs:49-52 | the sizing tool's tiers and the default grid describe the same tiers and cell widths |
| RetainedCount.TierMeets | crates/busyncr-core/src/bench.rs:69-82 | the ages of one tier meet exactly the number of cells the loop divides it into, and one more if and only if its window starts later within a cell than it ends |
| RetainedCount.MaximumIsAttained | crates/busyncr-core/src/bench.rs:61-82 | for every instant and horizon some history aged within the horizon keeps one snapshot in every reachable cell, the most a plan can keep |
| RetainedCount.ProjectionHoldsIff | crates/busyncr-core/src/bench.rs:61-64 | the projected count bounds every plan of every history aged within the horizon if and only if no more cells than that are reachable at the instant |
| RetainedCount.ProjectionHoldsWhenAligned | crates/busyncr-core/src/bench.rs:61-64 | which, for every horizon the clock can show, is if and only if no tier's window straddles its cells |
| RetainedCount.KeptWithinProjection | crates/busyncr-core/src/bench.rs:61-82 | a plan of snapshots aged within the horizon never keeps more than the projected count and one for each tier whose window straddles its cells |
| RetainedCount.ProjectionCanBeExceeded | crates/busyncr-core/src/bench.rs:61-64 | a concrete day of snapshots of which nine are kept where eight are projected |
| Coverage.DefaultGridNested | crates/busyncr-core/src/retention.rs:110-119 | the default cell widths divide each other and its ages ascend |
| Coverage.CellsWiden | crates/busyncr-core/src/retention.rs:186-226 | two times in one cell of a tier share a cell of every older tier |
| Coverage.DropIsRepresented | crates/busyncr-daemon/src/store.rs:733-750 | a planned drop shares its cell with a later listed snapshot |
| Coverage.RunKeepsCovered | crates/busyncr-daemon/src/store.rs:733-757 | under any nested grid coverage holds after every run, overlapping prunes working from stale lists included |
| Coverage.EverySnapshotStaysRepresented | crates/busyncr-daemon/src/store.rs:733-757 | after any run under the default grid every snapshot ever stored has a listed one at or after it in the same cell of the tier its age now falls in |
| Coverage.NewestStaysListed | crates/busyncr-daemon/src/store.rs:733-757 | the newest snapshot ever stored is never pruned |
| Coverage.PruneIgnoresOwners | crates/busyncr-daemon/src/store.rs:733-757 | coverage is store-wide: of two snapshots in one cell the older is dropped whichever client stored it |
| ChunkIds.Display | crates/busyncr-core/src/chunking.rs:166-173 | writes the lower-case hex name |
| ChunkIds.FromStr | crates/busyncr-core/src/chunking.rs:181-202 | accepts exactly 64 hex digits of either case, and names the first bad one otherwise |
| ChunkIds.UnhexHex | crates/busyncr-core/src/chunking.rs:592-603 | parsing a displayed identity gives the identity |
| ChunkIds.HexUnhex | crates/busyncr-core/src/chunking.rs:181-202 | displaying a parsed name gives the name in lower case |
| ChunkIds.ObjectPathsDistinct | crates/busyncr-daemon/src/store.rs:293-296 | distinct chunks never share an object file, and none is mistaken for a temporary file |
| Index.EntryRoundTrip | crates/busyncr-core/src/index.rs:37-60 | a record decodes from its wire value |
| Index.WireRoundTrip | crates/busyncr-daemon/src/store.rs:1121-1131 | every 16-byte value, and no other, is the wire value of what it decodes to |
| Index.ToWireValue | crates/busyncr-core/src/index.rs:40-46 | fills the buffer with the wire value |
| Compression.ChooseCodec | crates/busyncr-core/src/compression.rs:312-372 | codec, payload and all six counters are those of the policy |
| Compression.DecodeWhatWasChosen | crates/busyncr-core/src/compression.rs:158-164 | under any policy and phase what is framed for a chunk decodes to the chunk |
| Compression.TallySums | crates/busyncr-core/src/compression.rs:254-283 | over any chunks: raw + zstd + escalated = chunks, bytes in and out are the sums of chunk and payload lengths |
| Compression.EscalationIsGated | crates/busyncr-core/src/compression.rs:340-366 | the retry is kept at most as often as invoked, and never invoked during the first full backup or when not configured |
| Compression.TallyNeverGrows | crates/busyncr-core/src/compression.rs:285-291 | with a keep threshold of at most one, bytes out never exceed bytes in and the savings are exactly the difference |
| Compression.NeverGrowsIff | crates/busyncr-core/src/compression.rs:285-291 | a stored payload can never be longer than its chunk, for every lawful compressor, if and only if the keep threshold, finite or infinite, is at most one |
| PolicyBench.SimulatePolicy | crates/busyncr-core/src/policy_bench.rs:249-278 | its closed form is the payload bytes plus 41 per chunk, with the counters of the real engine |
| PolicyBench.SimulateBackup | crates/busyncr-core/src/policy_bench.rs:12-16 | for the chunks a backup shipped it reports exactly the bytes and counters of that backup's ledger |
| PolicyBench.RawOnlyIff | crates/busyncr-core/src/policy_bench.rs:170-180 | the zero threshold stores every chunk raw if and only if no chunk compresses to nothing, as is assumed of zstd |
| PolicyBench.AlwaysKeeps | crates/busyncr-core/src/policy_bench.rs:170-180 | the infinite threshold stores raw only an empty chunk or one the compressor failed on |
| PolicyBench.EscalationNeverCosts | crates/busyncr-core/src/policy_bench.rs:138-147 | escalation never stores more than plain zstd, which never stores more than the chunks; in a first full backup it changes nothing |
| PolicyBench.MeasureCandidate | crates/busyncr-core/src/bench.rs:573-597 | the loop sums the projected manifest bytes and the chunk lengths |
| PolicyBench.ProjectionIsExact | crates/busyncr-core/src/bench.rs:579-592 | for a chunked tree the projection is the exact size of the manifest a backup records, and the content bytes are the tree's |
| ManifestCodec.RoundTrip | crates/busyncr-core/src/manifest.rs:183-257 | decoding an encoding gives the manifest |
| ManifestCodec.AcceptedIsCanonical | crates/busyncr-core/src/manifest.rs:216-257 | whatever bytes are accepted are the encoding of what is returned |
| ManifestCodec.PrefixIsTruncated | crates/busyncr-core/src/manifest.rs:112-142 | every proper prefix of an encoding is rejected as truncated |
| ManifestCodec.ExtensionIsTrailing | crates/busyncr-core/src/manifest.rs:250-255 | every proper extension is rejected for exactly the bytes that trail |
| ManifestCodec.EncodedSizeIsExact | crates/busyncr-core/src/manifest.rs:161-170 | the projected length is the encoded length, and encoding fails exactly when a count passes the largest u32 |
| ManifestIO.EncodedLength | crates/busyncr-core/src/manifest.rs:161-170 | the accumulating loop computes the projected length |
| ManifestIO.EncodeManifest | crates/busyncr-core/src/manifest.rs:183-209 | the appending loop computes the encoding |
| ManifestIO.DecodeManifest | crates/busyncr-core/src/manifest.rs:216-257 | the advancing cursor computes the decoding, error for error |
| ManifestIO.Cursor.TakeBytes | crates/busyncr-core/src/manifest.rs:112-142 | takes exactly so many bytes off the front or says how many are missing |
| Primitives.SealThenOpen | crates/busyncr-core/src/crypto.rs:168-215 | a sealed blob opens to what was sealed and is 40 bytes longer |
| Keyfile.HeaderReadsBack | crates/busyncr-core/src/crypto.rs:281-290 | every header field is read back from where it was put |
| Keyfile.WriteKeyfile | crates/busyncr-core/src/crypto.rs:291-320 | appends exactly the documented layout |
| Keyfile.ExportThenImport | crates/busyncr-core/src/crypto.rs:291-384 | an exported keyfile is 141 bytes and gives back both keys |
| Keyfile.ImportsIff | crates/busyncr-core/src/crypto.rs:327-384 | an import yields keys exactly when the file is a version 2 header followed by a payload of those keys that the passphrase unlocks under that header |
| Keys.StateDir.WriteAtomic | crates/busyncr-client/src/enroll.rs:465-493 | the file has the new content or nothing but its temporary file changed, whichever call failed |
| Keys.StateDir.EnsureKeyFile | crates/busyncr-client/src/enroll.rs:347-369 | an existing key file is validated and never overwritten; a missing one is created |
| Keys.StateDir.EnsureDataKey | crates/busyncr-client/src/enroll.rs:333-343 | each missing key is created on its own, every present file is unchanged, and the result says whether the data key is new |
| Keys.StateDir.BackUpExistingKeys | crates/busyncr-client/src/keys.rs:205-238 | both live files move to the first slot free for both, or nothing moves for want of one |
| Keys.StateDir.ImportKey | crates/busyncr-client/src/keys.rs:144-183 | for any number of calls that work, exactly the files it leaves behind: a keyfile that does not unlock and one that is already current change nothing; otherwise the live pair goes to the first free slot and the imported pair is installed, as far as the calls go; nothing held is lost |
| Keys.StateDir.ExportKey | crates/busyncr-client/src/keys.rs:110-129 | succeeds exactly if both live keys are whole, the path is free, the keyfile can be made and the calls work, and then the file holds the exported keyfile; otherwise nothing but a temporary file has changed |
| Keys.Migrate | crates/busyncr-client/src/keys.rs:258-275 | export on one machine then import on another installs the same two keys and keeps what was there |
| Keys.UseAll | crates/busyncr-client/src/keys.rs:131-143 | over any sequence of ensures and imports, each failing or crashing anywhere: each leaves exactly the files it should for the number of calls that worked, every key that was ever live is still live or in an old slot of its kind, and a use that reports success has installed or left the keys it should |
| KeyHistory.PairsStayTogetherIff | crates/busyncr-client/src/keys.rs:200-238 | over any uses, every pair of keys that was ever live stays together, live or in one slot, if and only if no import stops between its two renames |
| KeyHistory.PairsAreBornTogetherIff | crates/busyncr-client/src/enroll.rs:318-343 | over any uses, the live pair and the pair in every slot are at every moment ones that were there at first or were generated or imported together, if and only if no ensure writes one key beside a lone other it was not born with |
| KeyHistory.UsesKeepPairsIff | crates/busyncr-client/src/keys.rs:200-238 | both conditions are exact for every sequence of uses the model can make |
| KeyHistory.WholeUsesKeepPairs | crates/busyncr-client/src/keys.rs:131-143 | if no use stops part way and there are two keys or none at first, no pair ever comes apart or is mixed |
| KeyHistory.SplitByImports | crates/busyncr-client/src/keys.rs:200-238 | an import stopped between its renames and then repeated leaves the data key in slot 1 and its chunk-ID key in slot 2 |
| KeyHistory.MixedByEnsure | crates/busyncr-client/src/enroll.rs:333-343 | an import stopped between its writes and then an ensure leave the imported data key live beside a fresh chunk-ID key |
| Protocol.ShippedIsFetched | crates/busyncr-client/src/backup.rs:413-432 | what is shipped for a chunk under any policy, phase and nonce is fetched back as the chunk |
| Protocol.ListedKeepsStored | crates/busyncr-daemon/src/store.rs:583-597 | while a snapshot stays listed no run changes its blob or its references |
| Protocol.ReferencedChunkIsFetched | crates/busyncr-client/src/restore.rs:317-329 | in any reachable state a chunk a listed snapshot references is read, decrypted and decoded to its text |
| Protocol.FetchedIsTheChunk | crates/busyncr-client/src/restore.rs:317-329 | in any reachable state a read under a chunk's identity yields that chunk or fails |
| Restoring.TreeOfIsTheSource | crates/busyncr-client/src/backup.rs:183-190 | the source tree has each file at its path and nothing else |
| Restoring.StoredSnapshotRestores | crates/busyncr-client/src/restore.rs:200-361 | in any reachable state holding a backup, restore returns exactly its files |
| Restoring.ListedSnapshotRestores | crates/busyncr-client/src/restore.rs:165-172 | once stored, in every later state with the snapshot still listed, restore returns exactly the files backed up |
| Daemon.Daemon.HasChunks | crates/busyncr-daemon/src/service.rs:432-462 | succeeds exactly if every identity's turn lets the call through; then each identity reported missing was absent, and each other one indexed, at some moment of the call |
| Daemon.Daemon.PutChunk | crates/busyncr-daemon/src/service.rs:475-485 | a store write runs its sub-steps in order, or finds the chunk present and does nothing |
| Daemon.Daemon.UploadChunks | crates/busyncr-daemon/src/service.rs:464-492 | stored plus already present is the number of blobs, and each was indexed at some moment of the call; without a failing turn it fails only on a write the store cannot begin |
| Daemon.Daemon.PutManifest | crates/busyncr-daemon/src/service.rs:494-552 | acknowledged only if the snapshot was committed with its blob and references; rejected only for the store's reason |
| Daemon.Daemon.GetManifestBlob | crates/busyncr-daemon/src/service.rs:554-567 | unless the reply is forged, the blob stored for the snapshot at that moment |
| Daemon.Daemon.ReadChunk | crates/busyncr-daemon/src/service.rs:586-599 | unless the reply is forged, what a store read returns at that moment |
| Backup.Session.Pack | crates/busyncr-client/src/backup.rs:413-432 | one missing chunk is compressed, framed, sealed and counted exactly once |
| Backup.Session.PackMissing | crates/busyncr-client/src/backup.rs:404-437 | exactly the missing pending chunks are shipped, the others counted as deduplicated |
| Backup.Session.ShipPending | crates/busyncr-client/src/backup.rs:385-448 | after a flush every pending chunk was in the index at some moment, and those shipped were missing before; pending is drained if and only if the daemon lets the question through for every pending chunk and its answer is well-formed |
| Backup.FlushLeavesPending | crates/busyncr-client/src/backup.rs:399-412 | one pending chunk and a garbled answer: the flush fails and the chunk is still pending |
| Backup.Session.Flush | crates/busyncr-client/src/backup.rs:385-448 | keeps the ledger: uploaded + deduplicated + pending = unique = chunks seen, nothing shipped twice, upload bytes the sum of shipped ciphertext lengths; drains pending under the same condition |
| Backup.Session.See | crates/busyncr-client/src/backup.rs:305-325 | a chunk is counted, queued if not seen before, and the queue flushed at either limit |
| Backup.Session.SeeAll | crates/busyncr-client/src/backup.rs:300-330 | a file's identities are its chunks' in order and its length their sum |
| Backup.Session.BackupFile | crates/busyncr-client/src/backup.rs:283-341 | the recorded entry has the file's path, metadata, size and chunk identities |
| Backup.Session.ShipFiles | crates/busyncr-client/src/backup.rs:283-358 | after the last flush every manifest reference was indexed at some moment, every chunk shipped came into the index since the backup began, and the report balances; it fails only because a seal does, a turn does, or the store cannot begin an upload |
| Backup.Session.RecordSnapshot | crates/busyncr-client/src/backup.rs:345-358 | on success the daemon holds the sealed manifest and its references, and the report its exact size; every failure is explained by the manifest, the seal, a turn, the store's state, a ULID that was taken or a reference that was missing |
| Backup.Session.RunBackup | crates/busyncr-client/src/backup.rs:232-360 | a successful backup is in the daemon's tables, holding exactly the source, and its report accounts for every chunk and byte; and it succeeds if no turn fails, everything seals, the manifest encodes, its ULID is free and its counts fit, the store can begin every write, and no referenced chunk is missing; one that is missing was lost to a gc since the backup began, and if every gc came within its grace it is none of the chunks shipped and its mark was older than the backup |
| Restore.Restorer.FetchManifest | crates/busyncr-client/src/restore.rs:208-217 | whatever the reply, what is accepted opens and decodes to the manifest returned; from a trusted daemon it is the one stored at a moment of the call |
| Restore.Restorer.FetchChunk | crates/busyncr-client/src/restore.rs:317-329 | whatever the reply, only plaintext matching the identity is accepted, which is the chunk's own text if it is a text of the backup set; from a trusted daemon it is in any case |
| Restore.Restorer.RestoreFile | crates/busyncr-client/src/restore.rs:269-361 | the file written is its chunks in order, each matching its identity, under a safe path |
| Restore.Restorer.RestoreFiles | crates/busyncr-client/src/restore.rs:231-252 | the files in order, each of its recorded size, and the report counts them |
| Restore.Restorer.Run | crates/busyncr-client/src/restore.rs:165-262 | whatever the replies, success means every file of the manifest decoded, each of its size and each chunk matching its identity, and nothing else; from a trusted daemon, with others using the store: if the snapshot was listed when its manifest was read the target is exactly the source; and it succeeds if the snapshot stays listed and no call fails |
| Restore.VerifiedIsTheTree | crates/busyncr-client/src/restore.rs:165-169 | what a successful restore of a source's manifest wrote is the source tree, whoever replied, if the texts it accepted are texts of the backup set |
| Restore.BackUpThenRestore | crates/busyncr-client/src/restore.rs:165-172 | end to end over any interleaving: a backup that succeeded is restored byte-exact while its snapshot is listed, and is restored if no call fails and it stays listed; a backup that fails does so for one of the reasons of RunBackup |
| FanOut.RunKeepsInv | crates/busyncr-core/src/bench.rs:200-306 | in every interleaving, for each worker, bytes consumed then the rest of its block then its queue are the part of the source sent to it |
| FanOut.NoDeadlock | crates/busyncr-core/src/bench.rs:200-306 | until every thread has ended some thread can go on other than by failing |
| FanOut.Terminates | crates/busyncr-core/src/bench.rs:200-306 | no schedule is longer than the work there was at the start |
| FanOut.CanFinish | crates/busyncr-core/src/bench.rs:200-306 | from every reachable state the threads can be scheduled to their end |
| FanOut.ScheduleIndependent | crates/busyncr-core/src/bench.rs:184-199 | a run that ends returns each candidate's result over the whole source, read once, unless the source or a chunker failed |
| FanOut.ChannelReader.Read | crates/busyncr-core/src/bench.rs:160-182 | gives out the next bytes of the stream, any number asked for, and nothing only at its end |
| Calendar.CivilIsTheDate | crates/busyncr-client/src/snapshots.rs:101-112 | every day number becomes a valid Gregorian date whose day number it is |
| Calendar.CivilOfDays | crates/busyncr-client/src/snapshots.rs:101-112 | every date is the date of its day number |
| Calendar.CivilFollowsTheCalendar | crates/busyncr-client/src/snapshots.rs:101-112 | day 0 is 1970-01-01 and each day number is followed by the next date |
| Calendar.StampRecomposes | crates/busyncr-client/src/snapshots.rs:90-97 | the six fields are in range and count up to the seconds of the input |
| Calendar.FormatReadsBack | crates/busyncr-client/src/snapshots.rs:90-98 | the printed text reads back as those fields |
| Base64.Base64Decode | crates/busyncr-daemon/src/identity.rs:503-532 | the table-driven loop computes the group-by-group decoding |
| Base64.AcceptsIff | crates/busyncr-daemon/src/identity.rs:503-532 | accepted is exactly: whitespace and up to two closing pads aside, only symbols, and not one too many |
| Base64.DecodeEncoded | crates/busyncr-daemon/src/identity.rs:503-532 | the padded encoding of any bytes, with whitespace anywhere, decodes to them |
| Base64.PemRoundTrip | crates/busyncr-daemon/src/identity.rs:492-499 | the payload comes back from its PEM block, however wrapped and with either line end |
| Base64.FirstBlockIff | crates/busyncr-daemon/src/identity.rs:491-499 | in any text, with any lines before and after it, a block's payload comes out if and only if the lines outside blocks are whitespace before it and, besides whitespace, at most the pads still missing to two after it |
| Base64.ExplanationIsJoined | crates/busyncr-daemon/src/identity.rs:491-499 | one block after a line that is not blank: its payload does not come out |
| Base64.TwoBlocks | crates/busyncr-daemon/src/identity.rs:491-499 | of two blocks the first payload is returned if the second is empty; otherwise both or nothing |

## Left out

- gRPC, TLS, authentication and enrollment, the command line, the Windows service and event log, progress rendering and status or configuration files: input and output around the behaviour modelled.
- The primitives themselves (FastCDC, BLAKE3, XChaCha20-Poly1305, Argon2id, zstd, lz4) and redb: parameters with laws, as above.
- fsync, permissions and directory entries: only the order of create, write, rename and unlink is modelled, and a file's content on disk is what was last written.
- ChunkStore.ChunkStore.GetStatus: counts per client and the times of the last prune and gc; the tables of snapshot owners and status events, which no other operation reads, are not modelled.
- Keys of the wrong width in a table, which the code skips: table keys are typed.
- Detecting the phase, loading keys and connecting, at the start of a run: the phase, the keys and the daemon are parameters.
- Walking the source folders and path sanitizing on Windows: a source is a list of files with distinct, safe, textual paths.
- Files of a restore that failed half way: the target gets a file when it is complete. Setting mtime and mode is recording them.
- Daemon.Daemon.PutChunk: a chunk write inside an RPC is not interrupted by others, who act between writes; the machine's own theorems cover every interruption of it.
- Daemon.Daemon.UploadChunks: the blobs are given at once rather than streamed.
- Daemon.Daemon.HasChunks: a daemon that lies about what it holds is outside the backup theorems; a restore distrusts every reply.
- FanOut.ScheduleIndependent: that a chunker's output depends only on the bytes it consumed is assumed of it; a panic of a thread is a failure of it.
- Calendar.CivilIsTheDate: day numbers are unbounded, so the 64-bit overflow near either end, which no timestamp reaches, is not modelled.
- Compression.ChooseCodec: thresholds and ratios are reals, so rounding of the quotients is not modelled; an infinite or unordered probe or escalation threshold is not either.
- PolicyBench.MeasureCandidate: distinct chunks, percentiles, ratios and the baseline overlap of the report.
- The throughput and bandwidth figures of the policy benchmark: floating-point reporting.
- Client registry and tokens: shallow checks, true only one call at a time.
- Keys.StateDir.ImportKey: names of key files are constructors rather than strings.
