/** Snapshot manifests and their canonical wire form. */
module Manifest {
  import opened Bytes
  import opened Wrappers
  import opened ChunkIds
  import opened Tables
  import opened Utf8

  const HEADER_BYTES: nat := 16 + 8 + 4
  const FILE_FIXED_BYTES: nat := 4 + 8 + 8 + 4 + 4 + 4

  datatype FileEntry = FileEntry(
    path: Bytes, size: u64, mtimeSecs: i64, mtimeNanos: u32, mode: u32, chunks: seq<ChunkId>)

  datatype Manifest = Manifest(snapshotId: Ulid, createdAt: i64, files: seq<FileEntry>)

  datatype Field =
    | SnapshotId | CreatedAt | FileCount | PathLength | PathBytes | FileSize
    | MtimeSecs | MtimeNanos | Mode | ChunkCount | ChunkIdField

  datatype ManifestError =
    | TooLarge(tooLarge: Field, value: nat)
    | Truncated(what: Field, needed: nat)
    | TrailingBytes(count: nat)
    | InvalidPath(index: nat)

  /** A path is a `String`, so always text. */
  ghost predicate PathsAreText(m: Manifest) {
    forall i | 0 <= i < |m.files| :: IsUtf8(m.files[i].path)
  }

  // ---- encoding -----------------------------------------------------------

  function FitU32(value: nat, what: Field): Result<u32, ManifestError> {
    if value > U32_MAX then Err(TooLarge(what, value)) else Ok(value)
  }

  function UlidBytes(u: Ulid): (b: Bytes) ensures |b| == 16 { ToBe(u, 16) }

  function HeadBytes(m: Manifest, fileCount: u32): (b: Bytes) ensures |b| == HEADER_BYTES {
    UlidBytes(m.snapshotId) + (I64Le(m.createdAt) + U32Le(fileCount))
  }

  function FixedFields(f: FileEntry, chunkCount: u32): (b: Bytes) ensures |b| == 28 {
    U64Le(f.size) + (I64Le(f.mtimeSecs) + (U32Le(f.mtimeNanos) + (U32Le(f.mode) + U32Le(chunkCount))))
  }

  function EncodeFile(f: FileEntry): Result<Bytes, ManifestError> {
    var pathLen :- FitU32(|f.path|, PathLength);
    var chunkCount :- FitU32(|f.chunks|, ChunkCount);
    Ok(U32Le(pathLen) + (f.path + (FixedFields(f, chunkCount) + JoinRefs(f.chunks))))
  }

  function EncodeFiles(files: seq<FileEntry>): Result<Bytes, ManifestError> {
    if files == [] then Ok([]) else
      var first :- EncodeFile(files[0]);
      var rest :- EncodeFiles(files[1..]);
      Ok(first + rest)
  }

  function Encode(m: Manifest): Result<Bytes, ManifestError> {
    var fileCount :- FitU32(|m.files|, FileCount);
    var files :- EncodeFiles(m.files);
    Ok(HeadBytes(m, fileCount) + files)
  }

  function FilesLen(files: seq<FileEntry>): nat {
    if files == [] then 0 else
      FILE_FIXED_BYTES + |files[0].path| + ID_LEN * |files[0].chunks| + FilesLen(files[1..])
  }

  /** `encoded_len`: the size without serializing, which is also what the
      sizing tool projects from path lengths and chunk counts. */
  function EncodedLen(m: Manifest): nat { HEADER_BYTES + FilesLen(m.files) }

  function ChunkRefs(files: seq<FileEntry>): seq<ChunkId> {
    if files == [] then [] else files[0].chunks + ChunkRefs(files[1..])
  }

  // ---- decoding -----------------------------------------------------------

  type Parsed<T> = Result<(T, Bytes), ManifestError>

  /** `take` and `take_slice`: `n` bytes off the front. */
  function Take(input: Bytes, n: nat, what: Field): Parsed<Bytes> {
    if |input| < n then Err(Truncated(what, n - |input|)) else Ok((input[..n], input[n..]))
  }

  function DecodeIds(input: Bytes, count: nat): Parsed<seq<ChunkId>>
    decreases count
  {
    if count == 0 then Ok(([], input)) else
      var (id, rest) :- Take(input, ID_LEN, ChunkIdField);
      var (ids, rest') :- DecodeIds(rest, count - 1);
      Ok(([id] + ids, rest'))
  }

  function DecodePath(input: Bytes, index: nat): Parsed<Bytes> {
    var (len, rest) :- Take(input, 4, PathLength);
    var (path, rest') :- Take(rest, ReadU32(len), PathBytes);
    if IsUtf8(path) then Ok((path, rest')) else Err(InvalidPath(index))
  }

  /** The fields between path and chunks, and the chunk count. */
  function DecodeFixed(input: Bytes, path: Bytes): Parsed<(FileEntry, nat)> {
    var (size, r0) :- Take(input, 8, FileSize);
    var (secs, r1) :- Take(r0, 8, MtimeSecs);
    var (nanos, r2) :- Take(r1, 4, MtimeNanos);
    var (mode, r3) :- Take(r2, 4, Mode);
    var (count, r4) :- Take(r3, 4, ChunkCount);
    Ok(((FileEntry(path, ReadU64(size), ReadI64(secs), ReadU32(nanos), ReadU32(mode), []), ReadU32(count)), r4))
  }

  function DecodeFile(input: Bytes, index: nat): Parsed<FileEntry> {
    var (path, r0) :- DecodePath(input, index);
    var ((entry, count), r1) :- DecodeFixed(r0, path);
    var (ids, r2) :- DecodeIds(r1, count);
    Ok((entry.(chunks := ids), r2))
  }

  /** `count` records one after the other, numbered from `index`. */
  function DecodeMany<T(!new)>(one: (Bytes, nat) -> Parsed<T>, input: Bytes, count: nat, index: nat): Parsed<seq<T>>
    decreases count
  {
    if count == 0 then Ok(([], input)) else
      var (f, rest) :- one(input, index);
      var (fs, rest') :- DecodeMany(one, rest, count - 1, index + 1);
      Ok(([f] + fs, rest'))
  }

  function DecodeFiles(input: Bytes, count: nat, index: nat): Parsed<seq<FileEntry>> {
    DecodeMany(DecodeFile, input, count, index)
  }

  function DecodeHead(input: Bytes): Parsed<(Manifest, nat)> {
    var (ulid, r0) :- Take(input, 16, SnapshotId);
    var (created, r1) :- Take(r0, 8, CreatedAt);
    var (count, r2) :- Take(r1, 4, FileCount);
    BeUnique(ulid); Pow256Values();
    Ok(((Manifest(FromBe(ulid), ReadI64(created), []), ReadU32(count)), r2))
  }

  /** Everything but the check that nothing follows. */
  function DecodeBody(input: Bytes): Parsed<Manifest> {
    var ((m, count), r0) :- DecodeHead(input);
    var (files, r1) :- DecodeFiles(r0, count, 0);
    Ok((m.(files := files), r1))
  }

  function Decode(input: Bytes): Result<Manifest, ManifestError> {
    var (m, rest) :- DecodeBody(input);
    if rest == [] then Ok(m) else Err(TrailingBytes(|rest|))
  }
}
