/** The manifest wire form is a bijection between manifests that fit it and
    the byte strings the decoder accepts. */
module ManifestCodec {
  import opened Bytes
  import opened Wrappers
  import opened ChunkIds
  import opened Tables
  import opened Utf8
  import opened Manifest
  import RC = RefCounts

  // ---- more input --------------------------------------------------------

  /** What parsing `input` found, parsing `input + more` finds too, with
      `more` left over; only a shortage of input can be cured by more of it. */
  ghost predicate Extends<T(!new)>(a: Parsed<T>, b: Parsed<T>, more: Bytes) {
    match a
    case Ok((v, rest)) => b == Ok((v, rest + more))
    case Err(e) => e.Truncated? || b == Err(e)
  }

  lemma TakeMore(input: Bytes, n: nat, what: Field, more: Bytes)
    ensures Extends(Take(input, n, what), Take(input + more, n, what), more)
  {
    if n <= |input| {
      assert (input + more)[..n] == input[..n] && (input + more)[n..] == input[n..] + more;
    }
  }

  lemma {:induction false} DecodeIdsMore(input: Bytes, count: nat, more: Bytes)
    ensures Extends(DecodeIds(input, count), DecodeIds(input + more, count), more)
    decreases count
  {
    TakeMore(input, ID_LEN, ChunkIdField, more);
    if count > 0 && Take(input, ID_LEN, ChunkIdField).Ok? {
      DecodeIdsMore(input[ID_LEN..], count - 1, more);
    }
  }

  lemma DecodePathMore(input: Bytes, index: nat, more: Bytes)
    ensures Extends(DecodePath(input, index), DecodePath(input + more, index), more)
  {
    TakeMore(input, 4, PathLength, more);
    if |input| >= 4 {
      TakeMore(input[4..], ReadU32(input[..4]), PathBytes, more);
    }
  }

  lemma DecodeFixedMore(input: Bytes, path: Bytes, more: Bytes)
    ensures Extends(DecodeFixed(input, path), DecodeFixed(input + more, path), more)
  {
    TakeMore(input, 8, FileSize, more);
    if |input| >= 28 {
      TakeMore(input[8..], 8, MtimeSecs, more);
      TakeMore(input[8..][8..], 4, MtimeNanos, more);
      TakeMore(input[8..][8..][4..], 4, Mode, more);
      TakeMore(input[8..][8..][4..][4..], 4, ChunkCount, more);
    }
  }

  lemma DecodeFileMore(input: Bytes, index: nat, more: Bytes)
    ensures Extends(DecodeFile(input, index), DecodeFile(input + more, index), more)
  {
    DecodePathMore(input, index, more);
    if DecodePath(input, index).Ok? {
      var (path, r0) := DecodePath(input, index).value;
      DecodeFixedMore(r0, path, more);
      if DecodeFixed(r0, path).Ok? {
        var ((_, count), r1) := DecodeFixed(r0, path).value;
        DecodeIdsMore(r1, count, more);
      }
    }
  }

  lemma DecodeFilesOk(input: Bytes, count: nat, index: nat, f: FileEntry, rest: Bytes)
    requires count > 0 && DecodeFile(input, index) == Ok((f, rest))
    ensures DecodeFiles(input, count, index)
         == match DecodeFiles(rest, count - 1, index + 1)
            case Err(e) => Err(e)
            case Ok((fs, r)) => Ok(([f] + fs, r))
  {}

  /** More input does not change what a record parser found. */
  ghost predicate Stable<T(!new)>(one: (Bytes, nat) -> Parsed<T>) {
    forall input: Bytes, index: nat, more: Bytes {:trigger one(input + more, index)} ::
      Extends(one(input, index), one(input + more, index), more)
  }

  lemma {:induction false} DecodeManyMore<T(!new)>(one: (Bytes, nat) -> Parsed<T>, input: Bytes, count: nat, index: nat,
                                                   more: Bytes)
    requires Stable(one)
    ensures Extends(DecodeMany(one, input, count, index), DecodeMany(one, input + more, count, index), more)
    decreases count
  {
    if count > 0 {
      assert Extends(one(input, index), one(input + more, index), more);
      if one(input, index).Ok? {
        DecodeManyMore(one, one(input, index).value.1, count - 1, index + 1, more);
      }
    }
  }

  lemma DecodeFilesMore(input: Bytes, count: nat, index: nat, more: Bytes)
    ensures Extends(DecodeFiles(input, count, index), DecodeFiles(input + more, count, index), more)
  {
    forall input: Bytes, index: nat, more: Bytes
      ensures Extends(DecodeFile(input, index), DecodeFile(input + more, index), more)
    {
      DecodeFileMore(input, index, more);
    }
    DecodeManyMore(DecodeFile, input, count, index, more);
  }

  lemma DecodeHeadMore(input: Bytes, more: Bytes)
    ensures Extends(DecodeHead(input), DecodeHead(input + more), more)
  {
    TakeMore(input, 16, SnapshotId, more);
    if |input| >= HEADER_BYTES {
      TakeMore(input[16..], 8, CreatedAt, more);
      TakeMore(input[16..][8..], 4, FileCount, more);
    }
  }

  lemma DecodeBodyMore(input: Bytes, more: Bytes)
    ensures Extends(DecodeBody(input), DecodeBody(input + more), more)
  {
    DecodeHeadMore(input, more);
    if DecodeHead(input).Ok? {
      var ((_, count), r0) := DecodeHead(input).value;
      DecodeFilesMore(r0, count, 0, more);
    }
  }

  // ---- decode after encode ------------------------------------------------

  lemma {:induction false} DecodeJoined(ids: seq<ChunkId>)
    ensures DecodeIds(JoinRefs(ids), |ids|) == Ok((ids, []))
  {
    if ids != [] {
      DecodeJoined(ids[1..]);
      var row := JoinRefs(ids);
      assert row[..ID_LEN] == ids[0] && row[ID_LEN..] == JoinRefs(ids[1..]);
      assert [ids[0]] + ids[1..] == ids;
    }
  }

  lemma DecodeEncodedFixed(f: FileEntry, rest: Bytes)
    requires |f.chunks| <= U32_MAX
    ensures DecodeFixed(FixedFields(f, |f.chunks|) + rest, f.path) == Ok(((f.(chunks := []), |f.chunks|), rest))
  {
    var b0 := U64Le(f.size);
    var b1, b2, b3, b4 := I64Le(f.mtimeSecs), U32Le(f.mtimeNanos), U32Le(f.mode), U32Le(|f.chunks|);
    WireIntegers(f.mtimeNanos, f.size, f.mtimeSecs);
    WireIntegers(f.mode, f.size, f.mtimeSecs);
    WireIntegers(|f.chunks|, f.size, f.mtimeSecs);
    var input := FixedFields(f, |f.chunks|) + rest;
    assert input == b0 + (b1 + (b2 + (b3 + (b4 + rest))));
    assert input[8..] == b1 + (b2 + (b3 + (b4 + rest)));
    assert input[8..][8..] == b2 + (b3 + (b4 + rest));
    assert input[8..][8..][4..] == b3 + (b4 + rest);
    assert input[8..][8..][4..][4..] == b4 + rest;
    assert input[8..][8..][4..][4..][4..] == rest;
  }

  lemma DecodeEncodedPath(path: Bytes, rest: Bytes, index: nat)
    requires |path| <= U32_MAX && IsUtf8(path)
    ensures DecodePath(U32Le(|path|) + (path + rest), index) == Ok((path, rest))
  {
    WireIntegers(|path|, 0, 0);
    var input := U32Le(|path|) + (path + rest);
    assert input[..4] == U32Le(|path|) && input[4..] == path + rest;
    assert (path + rest)[..|path|] == path && (path + rest)[|path|..] == rest;
  }

  lemma DecodeEncodedFile(f: FileEntry, index: nat)
    requires EncodeFile(f).Ok? && IsUtf8(f.path)
    ensures DecodeFile(EncodeFile(f).value, index) == Ok((f, []))
  {
    var tail := FixedFields(f, |f.chunks|) + JoinRefs(f.chunks);
    DecodeEncodedPath(f.path, tail, index);
    DecodeEncodedFixed(f, JoinRefs(f.chunks));
    DecodeJoined(f.chunks);
  }

  lemma {:induction false} DecodeEncodedFiles(files: seq<FileEntry>, index: nat)
    requires EncodeFiles(files).Ok? && forall i | 0 <= i < |files| :: IsUtf8(files[i].path)
    ensures DecodeFiles(EncodeFiles(files).value, |files|, index) == Ok((files, []))
    decreases |files|
  {
    if files != [] {
      var f, fs := files[0], files[1..];
      EncodeFilesCons(files);
      var rest := EncodeFiles(fs).value;
      DecodeEncodedFileThen(f, rest, index);
      DecodeEncodedFiles(fs, index + 1);
      DecodeFilesStep(EncodeFile(f).value + rest, index, f, rest, fs, []);
      assert [f] + fs == files;
    }
  }

  lemma EncodeFilesCons(files: seq<FileEntry>)
    requires files != [] && EncodeFiles(files).Ok?
    ensures EncodeFile(files[0]).Ok? && EncodeFiles(files[1..]).Ok?
    ensures EncodeFiles(files).value == EncodeFile(files[0]).value + EncodeFiles(files[1..]).value
  {}

  lemma DecodeEncodedFileThen(f: FileEntry, rest: Bytes, index: nat)
    requires EncodeFile(f).Ok? && IsUtf8(f.path)
    ensures DecodeFile(EncodeFile(f).value + rest, index) == Ok((f, rest))
  {
    DecodeEncodedFile(f, index);
    DecodeFileMore(EncodeFile(f).value, index, rest);
    assert [] + rest == rest;
  }

  lemma DecodeFilesStep(input: Bytes, index: nat, f: FileEntry, mid: Bytes, fs: seq<FileEntry>, rest: Bytes)
    requires DecodeFile(input, index) == Ok((f, mid))
    requires DecodeFiles(mid, |fs|, index + 1) == Ok((fs, rest))
    ensures DecodeFiles(input, |[f] + fs|, index) == Ok(([f] + fs, rest))
  {}

  lemma HeadSlices(ulid: Bytes, created: Bytes, count: Bytes, rest: Bytes)
    requires |ulid| == 16 && |created| == 8 && |count| == 4
    ensures var input := ulid + (created + count) + rest;
            && input[..16] == ulid && input[16..][..8] == created && input[16..][8..][..4] == count
            && input[16..][8..][4..] == rest
  {
    var input := ulid + (created + count) + rest;
    assert input[16..] == created + count + rest;
    assert input[16..][8..] == count + rest;
  }

  lemma DecodeEncodedHead(m: Manifest, rest: Bytes)
    requires |m.files| <= U32_MAX
    ensures DecodeHead(HeadBytes(m, |m.files|) + rest) == Ok(((m.(files := []), |m.files|), rest))
  {
    Pow256Values();
    BeRoundTrip(m.snapshotId, 16);
    WireIntegers(|m.files|, 0, m.createdAt);
    HeadSlices(UlidBytes(m.snapshotId), I64Le(m.createdAt), U32Le(|m.files|), rest);
  }

  lemma DecodeEncodedBody(m: Manifest)
    requires Encode(m).Ok? && PathsAreText(m)
    ensures DecodeBody(Encode(m).value) == Ok((m, []))
  {
    DecodeEncodedHead(m, EncodeFiles(m.files).value);
    DecodeEncodedFiles(m.files, 0);
  }

  /** Encoding then decoding gives the manifest back. */
  lemma RoundTrip(m: Manifest)
    requires Encode(m).Ok? && PathsAreText(m)
    ensures Decode(Encode(m).value) == Ok(m)
  {
    DecodeEncodedBody(m);
  }

  /** Every proper prefix of an encoding is rejected as truncated. */
  lemma PrefixIsTruncated(m: Manifest, n: nat)
    requires Encode(m).Ok? && PathsAreText(m) && n < |Encode(m).value|
    ensures Decode(Encode(m).value[..n]).Err? && Decode(Encode(m).value[..n]).error.Truncated?
  {
    var b := Encode(m).value;
    DecodeEncodedBody(m);
    assert b[..n] + b[n..] == b;
    DecodeBodyMore(b[..n], b[n..]);
    NothingIsLeft(DecodeBody(b[..n]), DecodeBody(b), m, b[n..]);
    TruncatedBody(b[..n]);
  }

  lemma NothingIsLeft<T(!new)>(r: Parsed<T>, r': Parsed<T>, value: T, more: Bytes)
    requires Extends(r, r', more) && r' == Ok((value, [])) && more != []
    ensures r.Err? && r.error.Truncated?
  {}

  lemma TruncatedBody(b: Bytes)
    requires DecodeBody(b).Err?
    ensures Decode(b) == Err(DecodeBody(b).error)
  {}

  lemma ExtendedBody(b: Bytes, m: Manifest, more: Bytes)
    requires DecodeBody(b) == Ok((m, []))
    ensures DecodeBody(b + more) == Ok((m, more))
  {
    DecodeBodyMore(b, more);
    MoreIsLeft(DecodeBody(b), DecodeBody(b + more), m, more);
  }

  lemma MoreIsLeft<T(!new)>(r: Parsed<T>, r': Parsed<T>, value: T, more: Bytes)
    requires Extends(r, r', more) && r == Ok((value, []))
    ensures r' == Ok((value, more))
  {
    assert [] + more == more;
  }

  lemma TrailingAfter(b: Bytes, m: Manifest, rest: Bytes)
    requires DecodeBody(b) == Ok((m, rest)) && rest != []
    ensures Decode(b) == Err(TrailingBytes(|rest|))
  {}

  /** Every proper extension is rejected for exactly the bytes that trail. */
  lemma ExtensionIsTrailing(m: Manifest, more: Bytes)
    requires Encode(m).Ok? && PathsAreText(m) && more != []
    ensures Decode(Encode(m).value + more) == Err(TrailingBytes(|more|))
  {
    DecodeEncodedBody(m);
    ExtendedBody(Encode(m).value, m, more);
    TrailingAfter(Encode(m).value + more, m, more);
  }

  // ---- encode after decode --------------------------------------------------

  lemma {:induction false} JoinDecoded(input: Bytes, count: nat)
    requires DecodeIds(input, count).Ok?
    ensures var (ids, rest) := DecodeIds(input, count).value;
            |ids| == count && input == JoinRefs(ids) + rest
    decreases count
  {
    if count > 0 {
      JoinDecoded(input[ID_LEN..], count - 1);
      var (ids, rest) := DecodeIds(input[ID_LEN..], count - 1).value;
      assert ([input[..ID_LEN]] + ids)[1..] == ids;
      assert input == input[..ID_LEN] + input[ID_LEN..];
      assert input == input[..ID_LEN] + JoinRefs(ids) + rest;
    }
  }

  lemma EncodeDecodedFixed(input: Bytes, path: Bytes)
    requires DecodeFixed(input, path).Ok?
    ensures var ((f, count), rest) := DecodeFixed(input, path).value;
            f.path == path && f.chunks == [] && count <= U32_MAX && input == FixedFields(f, count) + rest
  {
    WireIntegersUnique(input[16..20], input[..8]);
    WireIntegersUnique(input[20..24], input[8..16]);
    WireIntegersUnique(input[24..28], input[8..16]);
    assert input[8..][..8] == input[8..16];
    assert input[8..][8..][..4] == input[16..20];
    assert input[8..][8..][4..][..4] == input[20..24];
    assert input[8..][8..][4..][4..][..4] == input[24..28];
    assert input == input[..8] + (input[8..16] + (input[16..20] + (input[20..24] + input[24..28]))) + input[28..];
  }

  lemma EncodeDecodedPath(input: Bytes, index: nat)
    requires DecodePath(input, index).Ok?
    ensures var (path, rest) := DecodePath(input, index).value;
            IsUtf8(path) && |path| <= U32_MAX && input == U32Le(|path|) + (path + rest)
  {
    var (path, rest) := DecodePath(input, index).value;
    WireIntegersUnique(input[..4], seq(8, _ => 0));
    assert input == input[..4] + (path + rest);
  }

  lemma AssembleFile(entry: FileEntry, ids: seq<ChunkId>, rest: Bytes)
    requires |entry.path| <= U32_MAX && |ids| <= U32_MAX
    ensures var f := entry.(chunks := ids);
            && EncodeFile(f).Ok?
            && U32Le(|entry.path|) + (entry.path + (FixedFields(entry, |ids|) + (JoinRefs(ids) + rest)))
            == EncodeFile(f).value + rest
  {
    var f := entry.(chunks := ids);
    assert FixedFields(f, |ids|) == FixedFields(entry, |ids|);
    Reassociate(U32Le(|entry.path|), entry.path, FixedFields(entry, |ids|), JoinRefs(ids), rest);
  }

  lemma Reassociate(a: Bytes, b: Bytes, c: Bytes, d: Bytes, e: Bytes)
    ensures a + (b + (c + (d + e))) == (a + (b + (c + d))) + e
  {}

  lemma EncodeDecodedFile(input: Bytes, index: nat)
    requires DecodeFile(input, index).Ok?
    ensures var (f, rest) := DecodeFile(input, index).value;
            IsUtf8(f.path) && EncodeFile(f).Ok? && input == EncodeFile(f).value + rest
  {
    var (path, r0) := DecodePath(input, index).value;
    EncodeDecodedPath(input, index);
    EncodeDecodedFixed(r0, path);
    var ((entry, count), r1) := DecodeFixed(r0, path).value;
    JoinDecoded(r1, count);
    var (ids, rest) := DecodeIds(r1, count).value;
    AssembleFile(entry, ids, rest);
  }

  lemma EncodeFilesOf(f: FileEntry, fs: seq<FileEntry>, first: Bytes, others: Bytes)
    requires EncodeFile(f) == Ok(first) && EncodeFiles(fs) == Ok(others)
    ensures EncodeFiles([f] + fs) == Ok(first + others)
  {
    assert ([f] + fs)[1..] == fs;
  }

  /** What decodes to `files` with `rest` left over. */
  function Reencoded(files: seq<FileEntry>, rest: Bytes): Option<Bytes> {
    if PathsAreUtf8(files) && EncodeFiles(files).Ok? then Some(EncodeFiles(files).value + rest) else None
  }

  predicate PathsAreUtf8(files: seq<FileEntry>) {
    forall i | 0 <= i < |files| :: IsUtf8(files[i].path)
  }

  ghost predicate FileBack(input: Bytes, f: FileEntry, rest: Bytes) {
    IsUtf8(f.path) && EncodeFile(f).Ok? && input == EncodeFile(f).value + rest
  }

  lemma FileEncodesBack(input: Bytes, index: nat, f: FileEntry, rest: Bytes)
    requires DecodeFile(input, index) == Ok((f, rest))
    ensures FileBack(input, f, rest)
  {
    EncodeDecodedFile(input, index);
  }

  lemma ReencodedCons(input: Bytes, f: FileEntry, r0: Bytes, fs: seq<FileEntry>, rest: Bytes)
    requires FileBack(input, f, r0)
    ensures Reencoded(fs, rest) == Some(r0) ==> Reencoded([f] + fs, rest) == Some(input)
  {
    if Reencoded(fs, rest) == Some(r0) {
      var first, others := EncodeFile(f).value, EncodeFiles(fs).value;
      EncodeFilesOf(f, fs, first, others);
      Associates(first, others, rest);
    }
  }

  lemma Associates(a: Bytes, b: Bytes, c: Bytes)
    ensures a + (b + c) == (a + b) + c
  {}

  lemma DecodeFilesSplit(input: Bytes, count: nat, index: nat, files: seq<FileEntry>, rest: Bytes)
    returns (r0: Bytes, fs: seq<FileEntry>)
    requires count > 0 && DecodeFiles(input, count, index) == Ok((files, rest))
    ensures DecodeFiles(r0, count - 1, index + 1) == Ok((fs, rest)) && |files| == 1 + |fs|
    ensures Reencoded(fs, rest) == Some(r0) ==> Reencoded(files, rest) == Some(input)
  {
    var f := DecodeFile(input, index).value.0;
    r0 := DecodeFile(input, index).value.1;
    DecodeFilesOk(input, count, index, f, r0);
    fs := DecodeFiles(r0, count - 1, index + 1).value.0;
    FileEncodesBack(input, index, f, r0);
    ReencodedCons(input, f, r0, fs, rest);
  }

  lemma ReencodedNil(input: Bytes, index: nat, files: seq<FileEntry>, rest: Bytes)
    requires DecodeFiles(input, 0, index) == Ok((files, rest))
    ensures |files| == 0 && Reencoded(files, rest) == Some(input)
  {
    assert [] + input == input;
  }

  lemma {:induction false} EncodeDecodedFiles(input: Bytes, count: nat, index: nat, files: seq<FileEntry>, rest: Bytes)
    ensures DecodeFiles(input, count, index) == Ok((files, rest)) ==>
              |files| == count && Reencoded(files, rest) == Some(input)
    decreases count
  {
    if DecodeFiles(input, count, index) == Ok((files, rest)) {
      if count == 0 {
        ReencodedNil(input, index, files, rest);
      } else {
        var r0, fs := DecodeFilesSplit(input, count, index, files, rest);
        EncodeDecodedFiles(r0, count - 1, index + 1, fs, rest);
      }
    }
  }

  lemma HeadParts(input: Bytes)
    requires |input| >= HEADER_BYTES
    ensures input[16..][..8] == input[16..24] && input[16..][8..][..4] == input[24..28]
    ensures input[16..][8..][4..] == input[28..]
    ensures input == input[..16] + (input[16..24] + input[24..28]) + input[28..]
  {}

  lemma EncodeDecodedHead(input: Bytes)
    requires DecodeHead(input).Ok?
    ensures var ((m, count), rest) := DecodeHead(input).value;
            m.files == [] && count <= U32_MAX && input == HeadBytes(m, count) + rest
  {
    HeadParts(input);
    BeUnique(input[..16]);
    WireIntegersUnique(input[24..28], input[16..24]);
  }

  /** Whatever bytes the decoder accepts are the encoding of what it returns. */
  lemma AcceptedIsCanonical(input: Bytes)
    requires Decode(input).Ok?
    ensures Encode(Decode(input).value) == Ok(input) && PathsAreText(Decode(input).value)
  {
    var ((m0, count), r0) := DecodeHead(input).value;
    EncodeDecodedHead(input);
    var (files, rest) := DecodeFiles(r0, count, 0).value;
    EncodeDecodedFiles(r0, count, 0, files, rest);
    assert rest == [] && r0 == EncodeFiles(files).value;
    EncodeWith(m0, files);
  }

  lemma EncodeWith(m: Manifest, files: seq<FileEntry>)
    requires |files| <= U32_MAX && EncodeFiles(files).Ok?
    ensures Encode(m.(files := files)) == Ok(HeadBytes(m, |files|) + EncodeFiles(files).value)
  {}

  // ---- size -----------------------------------------------------------------

  lemma {:induction false} ChunkRefsSnoc(files: seq<FileEntry>, f: FileEntry)
    ensures ChunkRefs(files + [f]) == ChunkRefs(files) + f.chunks
  {
    if files == [] {
      assert ChunkRefs([f]) == f.chunks + ChunkRefs([]);
    } else {
      ChunkRefsSnoc(files[1..], f);
      assert (files + [f])[1..] == files[1..] + [f];
    }
  }

  lemma {:induction false} FilesEncodedLen(files: seq<FileEntry>)
    requires EncodeFiles(files).Ok?
    ensures |EncodeFiles(files).value| == FilesLen(files)
  {
    if files != [] {
      RC.JoinLength(files[0].chunks);
      FilesEncodedLen(files[1..]);
    }
  }

  /** The projected size is exact, and a manifest fails to encode exactly when
      one of its counts passes the largest `u32`. */
  lemma EncodedSizeIsExact(m: Manifest)
    ensures Encode(m).Ok? ==> |Encode(m).value| == EncodedLen(m)
    ensures Encode(m).Ok?
       <==> |m.files| <= U32_MAX
            && forall i | 0 <= i < |m.files| :: |m.files[i].path| <= U32_MAX && |m.files[i].chunks| <= U32_MAX
  {
    EncodesIff(m.files);
    if Encode(m).Ok? {
      FilesEncodedLen(m.files);
    }
  }

  lemma {:induction false} EncodesIff(files: seq<FileEntry>)
    ensures EncodeFiles(files).Ok?
       <==> forall i | 0 <= i < |files| :: |files[i].path| <= U32_MAX && |files[i].chunks| <= U32_MAX
  {
    if files != [] {
      EncodesIff(files[1..]);
      assert files == [files[0]] + files[1..];
    }
  }
}
