/** The manifest encoder and decoder as they run: one appends to a buffer, the
    other advances a cursor. */
module ManifestIO {
  import opened Bytes
  import opened Wrappers
  import opened ChunkIds
  import opened Tables
  import opened Utf8
  import opened Manifest

  method EncodedLength(m: Manifest) returns (total: nat)
    ensures total == EncodedLen(m)
  {
    total := HEADER_BYTES;
    assert m.files[0..] == m.files;
    for i := 0 to |m.files|
      invariant total + FilesLen(m.files[i..]) == EncodedLen(m)
    {
      assert m.files[i..][1..] == m.files[i + 1..];
      total := total + FILE_FIXED_BYTES + |m.files[i].path| + ID_LEN * |m.files[i].chunks|;
    }
  }

  method EncodeOneFile(f: FileEntry) returns (r: Result<Bytes, ManifestError>)
    ensures r == EncodeFile(f)
  {
    var pathLen := FitU32(|f.path|, PathLength);
    if pathLen.Err? {
      return Err(pathLen.error);
    }
    var chunkCount := FitU32(|f.chunks|, ChunkCount);
    if chunkCount.Err? {
      return Err(chunkCount.error);
    }
    var ids: Bytes := [];
    assert f.chunks[0..] == f.chunks;
    for i := 0 to |f.chunks|
      invariant ids + JoinRefs(f.chunks[i..]) == JoinRefs(f.chunks)
    {
      assert f.chunks[i..][1..] == f.chunks[i + 1..];
      assert ids + (f.chunks[i] + JoinRefs(f.chunks[i + 1..])) == ids + f.chunks[i] + JoinRefs(f.chunks[i + 1..]);
      ids := ids + f.chunks[i];
    }
    assert ids + [] == ids;
    r := Ok(U32Le(pathLen.value) + (f.path + (FixedFields(f, chunkCount.value) + ids)));
  }

  /** What encoding the files still to come makes of the buffer so far. */
  function Onto(out: Bytes, r: Result<Bytes, ManifestError>): Result<Bytes, ManifestError> {
    match r
    case Ok(b) => Ok(out + b)
    case Err(e) => Err(e)
  }

  lemma OntoStep(out: Bytes, files: seq<FileEntry>)
    requires files != []
    ensures Onto(out, EncodeFiles(files))
         == match EncodeFile(files[0])
            case Err(e) => Err(e)
            case Ok(first) => Onto(out + first, EncodeFiles(files[1..]))
  {
    if EncodeFile(files[0]).Ok? && EncodeFiles(files[1..]).Ok? {
      var first, rest := EncodeFile(files[0]).value, EncodeFiles(files[1..]).value;
      assert out + (first + rest) == out + first + rest;
    }
  }

  method EncodeManifest(m: Manifest) returns (r: Result<Bytes, ManifestError>)
    ensures r == Encode(m)
  {
    var fileCount := FitU32(|m.files|, FileCount);
    if fileCount.Err? {
      return Err(fileCount.error);
    }
    var head := HeadBytes(m, fileCount.value);
    var out := head;
    assert m.files[0..] == m.files;
    for i := 0 to |m.files|
      invariant Onto(out, EncodeFiles(m.files[i..])) == Onto(head, EncodeFiles(m.files))
    {
      OntoStep(out, m.files[i..]);
      assert m.files[i..][1..] == m.files[i + 1..];
      var one := EncodeOneFile(m.files[i]);
      if one.Err? {
        return Err(one.error);
      }
      out := out + one.value;
    }
    assert out + [] == out;
    r := Ok(out);
  }

  class Cursor {
    var input: Bytes

    constructor (bytes: Bytes)
      ensures input == bytes
    {
      input := bytes;
    }

    method TakeBytes(n: nat, what: Field) returns (r: Result<Bytes, ManifestError>)
      modifies this
      ensures Agrees(old(input), Take(old(input), n, what), r, input)
    {
      if |input| < n {
        return Err(Truncated(what, n - |input|));
      }
      r := Ok(input[..n]);
      input := input[n..];
    }
  }

  /** A cursor that started at `before` returned `r` and stands at `after`, as
      the parse says; on an error nothing is said of where it stands. */
  ghost predicate Agrees<T(!new)>(before: Bytes, parse: Parsed<T>, r: Result<T, ManifestError>, after: Bytes) {
    match parse
    case Ok((v, rest)) => r == Ok(v) && after == rest
    case Err(e) => r == Err(e)
  }

  /** A parse whose first results are already collected. */
  ghost function After<T>(found: seq<T>, parse: Parsed<seq<T>>): Parsed<seq<T>> {
    match parse
    case Ok((more, rest)) => Ok((found + more, rest))
    case Err(e) => Err(e)
  }

  lemma AfterNothing<T>(parse: Parsed<seq<T>>)
    ensures After([], parse) == parse
  {
    if parse.Ok? {
      assert [] + parse.value.0 == parse.value.0;
    }
  }

  lemma AfterIdsStep(ids: seq<ChunkId>, input: Bytes, count: nat)
    requires count > 0
    ensures After(ids, DecodeIds(input, count))
         == match Take(input, ID_LEN, ChunkIdField)
            case Err(e) => Err(e)
            case Ok((id, rest)) => After(ids + [id], DecodeIds(rest, count - 1))
  {
    if ID_LEN <= |input| && DecodeIds(input[ID_LEN..], count - 1).Ok? {
      var more := DecodeIds(input[ID_LEN..], count - 1).value.0;
      assert ids + ([input[..ID_LEN]] + more) == ids + [input[..ID_LEN]] + more;
    }
  }

  method ReadIds(c: Cursor, count: nat) returns (r: Result<seq<ChunkId>, ManifestError>)
    modifies c
    ensures Agrees(old(c.input), DecodeIds(old(c.input), count), r, c.input)
  {
    var ids: seq<ChunkId> := [];
    AfterNothing(DecodeIds(c.input, count));
    for i := 0 to count
      invariant After(ids, DecodeIds(c.input, count - i)) == DecodeIds(old(c.input), count)
    {
      AfterIdsStep(ids, c.input, count - i);
      var id := c.TakeBytes(ID_LEN, ChunkIdField);
      if id.Err? {
        return Err(id.error);
      }
      ids := ids + [id.value];
    }
    assert ids + [] == ids;
    r := Ok(ids);
  }

  method ReadPath(c: Cursor, index: nat) returns (r: Result<Bytes, ManifestError>)
    modifies c
    ensures Agrees(old(c.input), DecodePath(old(c.input), index), r, c.input)
  {
    var len := c.TakeBytes(4, PathLength);
    if len.Err? {
      return Err(len.error);
    }
    var path := c.TakeBytes(ReadU32(len.value), PathBytes);
    if path.Err? {
      return path;
    }
    r := if IsUtf8(path.value) then path else Err(InvalidPath(index));
  }

  method ReadFixed(c: Cursor, path: Bytes) returns (r: Result<(FileEntry, nat), ManifestError>)
    modifies c
    ensures Agrees(old(c.input), DecodeFixed(old(c.input), path), r, c.input)
  {
    var size := c.TakeBytes(8, FileSize);
    if size.Err? {
      return Err(size.error);
    }
    var secs := c.TakeBytes(8, MtimeSecs);
    if secs.Err? {
      return Err(secs.error);
    }
    var nanos := c.TakeBytes(4, MtimeNanos);
    if nanos.Err? {
      return Err(nanos.error);
    }
    var mode := c.TakeBytes(4, Mode);
    if mode.Err? {
      return Err(mode.error);
    }
    var count := c.TakeBytes(4, ChunkCount);
    if count.Err? {
      return Err(count.error);
    }
    r := Ok((FileEntry(path, ReadU64(size.value), ReadI64(secs.value), ReadU32(nanos.value), ReadU32(mode.value), []),
             ReadU32(count.value)));
  }

  method ReadFile(c: Cursor, index: nat) returns (r: Result<FileEntry, ManifestError>)
    modifies c
    ensures Agrees(old(c.input), DecodeFile(old(c.input), index), r, c.input)
  {
    var path := ReadPath(c, index);
    if path.Err? {
      return Err(path.error);
    }
    var fixed := ReadFixed(c, path.value);
    if fixed.Err? {
      return Err(fixed.error);
    }
    var ids := ReadIds(c, fixed.value.1);
    if ids.Err? {
      return Err(ids.error);
    }
    r := Ok(fixed.value.0.(chunks := ids.value));
  }

  /** The files found so far and those the parse finds in what is left. */
  ghost function FilesFrom(files: seq<FileEntry>, input: Bytes, count: nat, index: nat): Parsed<seq<FileEntry>> {
    After(files, DecodeFiles(input, count, index))
  }

  lemma FilesFromStep(files: seq<FileEntry>, input: Bytes, count: nat, index: nat)
    requires count > 0
    ensures FilesFrom(files, input, count, index)
         == match DecodeFile(input, index)
            case Err(e) => Err(e)
            case Ok((f, rest)) => FilesFrom(files + [f], rest, count - 1, index + 1)
  {
    if DecodeFile(input, index).Ok? {
      var (f, rest) := DecodeFile(input, index).value;
      if DecodeFiles(rest, count - 1, index + 1).Ok? {
        var (fs, _) := DecodeFiles(rest, count - 1, index + 1).value;
        assert files + ([f] + fs) == files + [f] + fs;
      }
    }
  }

  lemma FilesFromEnd(files: seq<FileEntry>, input: Bytes, index: nat)
    ensures FilesFrom(files, input, 0, index) == Ok((files, input))
  {
    assert files + [] == files;
  }

  method ReadHead(c: Cursor) returns (r: Result<(Manifest, nat), ManifestError>)
    modifies c
    ensures Agrees(old(c.input), DecodeHead(old(c.input)), r, c.input)
  {
    var ulid := c.TakeBytes(16, SnapshotId);
    if ulid.Err? {
      return Err(ulid.error);
    }
    var created := c.TakeBytes(8, CreatedAt);
    if created.Err? {
      return Err(created.error);
    }
    var count := c.TakeBytes(4, FileCount);
    if count.Err? {
      return Err(count.error);
    }
    BeUnique(ulid.value);
    Pow256Values();
    r := Ok((Manifest(FromBe(ulid.value), ReadI64(created.value), []), ReadU32(count.value)));
  }

  /** One turn of the loop, with `count` records still to be read. */
  method ReadNext(c: Cursor, files: seq<FileEntry>, index: nat, ghost count: nat)
    returns (r: Result<seq<FileEntry>, ManifestError>)
    requires count > 0
    modifies c
    ensures r.Ok? ==> FilesFrom(r.value, c.input, count - 1, index + 1) == FilesFrom(files, old(c.input), count, index)
    ensures r.Err? ==> FilesFrom(files, old(c.input), count, index) == Err(r.error)
  {
    FilesFromStep(files, c.input, count, index);
    var f := ReadFile(c, index);
    r := if f.Ok? then Ok(files + [f.value]) else Err(f.error);
  }

  /** `whole` is the parse of all the records. */
  method ReadFiles(c: Cursor, count: nat, ghost whole: Parsed<seq<FileEntry>>)
    returns (r: Result<seq<FileEntry>, ManifestError>)
    requires whole == FilesFrom([], c.input, count, 0)
    modifies c
    ensures Agrees(old(c.input), whole, r, c.input)
  {
    r := Ok([]);
    ghost var left := count;
    for index := 0 to count
      invariant r.Ok? && left == count - index
      invariant whole == FilesFrom(r.value, c.input, left, index)
    {
      r := ReadNext(c, r.value, index, left);
      if r.Err? {
        return;
      }
      left := left - 1;
    }
    FilesFromEnd(r.value, c.input, count);
  }

  method DecodeManifest(bytes: Bytes) returns (r: Result<Manifest, ManifestError>)
    ensures r == Decode(bytes)
  {
    var c := new Cursor(bytes);
    var head := ReadHead(c);
    if head.Err? {
      return Err(head.error);
    }
    AfterNothing(DecodeFiles(c.input, head.value.1, 0));
    var files := ReadFiles(c, head.value.1, DecodeFiles(c.input, head.value.1, 0));
    if files.Err? {
      return Err(files.error);
    }
    if c.input != [] {
      return Err(TrailingBytes(|c.input|));
    }
    r := Ok(head.value.0.(files := files.value));
  }
}
