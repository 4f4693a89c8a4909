/** The client's key files: creation, export, import, and the preservation of
    whatever an import replaces. Any file-system call may be the last one that
    works, so what each operation ensures also holds of the directory a failure
    or a crash leaves behind. */
module Keys {
  import opened Bytes
  import opened Wrappers
  import opened Keyfile
  import P = Primitives

  datatype Kind = Data | ChunkId

  /** The files this model is about: `data.key` and `chunk-id.key` of the state
      directory, their `.old-<n>`, the keyfile an export writes, and the
      temporary file of each that is written atomically. */
  datatype File = Live(k: Kind) | Old(k: Kind, n: nat) | Output | Tmp(of: File)

  type Files = map<File, Bytes>

  const MAX_KEY_BACKUPS: nat := 1000

  datatype KeyError = Io | BadKey(k: Kind, found: nat) | NoBackupSlot | OutputExists | Crypto(c: P.CryptoError)

  datatype ImportOutcome = Installed | AlreadyCurrent | Replaced(backedUp: File)

  // ---- what is never lost ------------------------------------------------------

  /** `content` is the live key of its kind, or in one of its old slots. */
  ghost predicate Holds(files: Files, k: Kind, content: Bytes) {
    (Live(k) in files && files[Live(k)] == content) || (exists n :: Old(k, n) in files && files[Old(k, n)] == content)
  }

  /** Old slots stay as they are, and every live content is still held. */
  ghost predicate Kept(before: Files, after: Files) {
    && (forall k, n | Old(k, n) in before :: Old(k, n) in after && after[Old(k, n)] == before[Old(k, n)])
    && (forall k | Live(k) in before :: Holds(after, k, before[Live(k)]))
  }

  lemma KeptTransitive(a: Files, b: Files, c: Files)
    requires Kept(a, b) && Kept(b, c)
    ensures Kept(a, c)
  {
    forall k | Live(k) in a
      ensures Holds(c, k, a[Live(k)])
    {
      KeptHolds(b, c, k, a[Live(k)]);
    }
  }

  lemma KeptHolds(b: Files, c: Files, k: Kind, content: Bytes)
    requires Kept(b, c) && Holds(b, k, content)
    ensures Holds(c, k, content)
  {
    if !(Live(k) in b && b[Live(k)] == content) {
      var n :| Old(k, n) in b && b[Old(k, n)] == content;
      assert Old(k, n) in c;
    }
  }

  // ---- slots ---------------------------------------------------------------------

  predicate SlotFree(files: Files, n: nat) {
    Old(Data, n) !in files && Old(ChunkId, n) !in files
  }

  /** Kind `k`'s live file, if any, renamed to slot `n`. */
  function MoveAside(files: Files, k: Kind, n: nat): Files {
    if Live(k) in files then (files - {Live(k)})[Old(k, n) := files[Live(k)]] else files
  }

  /** Both live files renamed to one slot: the pair stays together. */
  function PairAside(files: Files, n: nat): Files {
    MoveAside(MoveAside(files, Data, n), ChunkId, n)
  }

  lemma MoveAsideKeeps(files: Files, k: Kind, n: nat)
    requires Old(k, n) !in files
    ensures Kept(files, MoveAside(files, k, n))
  {
    var after := MoveAside(files, k, n);
    if Live(k) in files {
      assert Old(k, n) in after && after[Old(k, n)] == files[Live(k)];
    }
  }

  /** Two directories agree but for temporary files. */
  ghost predicate SameKeys(a: Files, b: Files) {
    forall f: File | !f.Tmp? :: (f in a <==> f in b) && (f in a ==> a[f] == b[f])
  }

  function WithKeys(files: Files, keys: KeyPair): Files {
    files[Live(Data) := keys.data][Live(ChunkId) := keys.chunkId]
  }

  ghost predicate NoLive(files: Files) {
    Live(Data) !in files && Live(ChunkId) !in files
  }

  lemma AsideHasNoLive(files: Files, n: nat)
    ensures NoLive(PairAside(files, n))
  {}

  lemma SameKeysKept(a: Files, b: Files, c: Files)
    requires Kept(a, b) && SameKeys(b, c)
    ensures Kept(a, c)
  {
    forall k | Live(k) in a
      ensures Holds(c, k, a[Live(k)])
    {
      if n :| Old(k, n) in b && b[Old(k, n)] == a[Live(k)] {
        assert Old(k, n) in c;
      }
    }
  }

  /** Installing keys where there are none loses nothing. */
  lemma InstallKeeps(a: Files, b: Files, c: Files, keys: KeyPair)
    requires Kept(a, b) && NoLive(b)
    requires SameKeys(c, b) || SameKeys(c, b[Live(Data) := keys.data]) || SameKeys(c, WithKeys(b, keys))
    ensures Kept(a, c)
  {
    var b' := if SameKeys(c, b) then b else if SameKeys(c, b[Live(Data) := keys.data]) then b[Live(Data) := keys.data]
              else WithKeys(b, keys);
    assert forall k, n | Old(k, n) in b :: Old(k, n) in b' && b'[Old(k, n)] == b[Old(k, n)];
    KeptTransitive(a, b, b');
    SameKeysKept(a, b', c);
  }

  /** The first free slot of `1..=1000`. */
  ghost predicate FirstFree(files: Files, n: nat) {
    1 <= n <= MAX_KEY_BACKUPS && SlotFree(files, n) && forall m: nat | 1 <= m < n :: !SlotFree(files, m)
  }

  // ---- export --------------------------------------------------------------------

  predicate Paired(files: Files) {
    Live(Data) in files && Live(ChunkId) in files && |files[Live(Data)]| == 32 == |files[Live(ChunkId)]|
  }

  function LivePair(files: Files): KeyPair
    requires Paired(files)
  {
    KeyPair(files[Live(Data)], files[Live(ChunkId)])
  }

  // ---- what each operation leaves behind -------------------------------------------

  /** How far an operation has got: the files, how many more calls work, and
      whether everything has worked so far. */
  datatype Progress = Progress(files: Files, works: nat, going: bool)

  function Wrote(s: Progress, k: Kind, content: Bytes): Progress {
    if !s.going then s
    else if s.works < 3 then s.(works := 0, going := false)
    else Progress(s.files[Live(k) := content], s.works - 3, true)
  }

  function Ensured(s: Progress, k: Kind, generated: P.Key): Progress {
    if !s.going then s
    else if Live(k) in s.files then s.(going := |s.files[Live(k)]| == 32)
    else Wrote(s, k, generated)
  }

  function Moved(s: Progress, k: Kind, n: nat): Progress {
    if !s.going || Live(k) !in s.files then s
    else if s.works == 0 then s.(going := false)
    else Progress(MoveAside(s.files, k, n), s.works - 1, true)
  }

  function PairMoved(files: Files, works: nat, n: nat): Progress {
    Moved(Moved(Progress(files, works, true), Data, n), ChunkId, n)
  }

  function AfterEnsure(files: Files, works: nat, data: P.Key, chunkId: P.Key): Progress {
    Ensured(Ensured(Progress(files, works, true), Data, data), ChunkId, chunkId)
  }

  ghost function SlotOf(files: Files): Option<nat> {
    if n :| FirstFree(files, n) then Some(n) else None
  }

  lemma SlotIsFirst(files: Files, n: nat)
    requires FirstFree(files, n)
    ensures SlotOf(files) == Some(n)
  {}

  predicate Current(files: Files, keys: KeyPair) {
    && Live(Data) in files && files[Live(Data)] == keys.data
    && Live(ChunkId) in files && files[Live(ChunkId)] == keys.chunkId
  }

  /** Whatever is live moved to the first free slot. */
  ghost function Aside(files: Files, works: nat): Progress {
    if NoLive(files) then Progress(files, works, true)
    else match SlotOf(files)
      case None => Progress(files, works, false)
      case Some(n) => PairMoved(files, works, n)
  }

  ghost function AfterImport(p: P.Primitives, files: Files, works: nat, keyfile: Option<Bytes>, pass: Bytes): Progress {
    if keyfile.None? || ImportKeyfile(p, keyfile.value, pass).Err? then Progress(files, works, false)
    else
      var keys := ImportKeyfile(p, keyfile.value, pass).value;
      if Current(files, keys) then Progress(files, works, true)
      else Wrote(Wrote(Aside(files, works), Data, keys.data), ChunkId, keys.chunkId)
  }

  /** Two stages of one operation that differ only in temporary files. */
  ghost predicate SameStage(a: Progress, b: Progress) {
    SameKeys(a.files, b.files) && a.going == b.going && (a.going ==> a.works == b.works)
  }

  lemma InstalledAlike(a: Progress, b: Progress, keys: KeyPair)
    ensures SameStage(a, b) ==>
              SameStage(Wrote(Wrote(a, Data, keys.data), ChunkId, keys.chunkId),
                        Wrote(Wrote(b, Data, keys.data), ChunkId, keys.chunkId))
  {}

  // ---- the state directory -----------------------------------------------------------

  class StateDir {
    var files: Files
    var calls: nat  // how many more file-system calls that change anything will work
    const torn: nat // how much of a failing write reaches the file

    constructor (files: Files, calls: nat, torn: nat)
      ensures this.files == files && this.calls == calls
    {
      this.files, this.calls, this.torn := files, calls, torn;
    }

    method Rename(from: File, to: File) returns (ok: bool)
      requires from in files
      modifies this
      ensures ok <==> old(calls) > 0
      ensures calls <= old(calls) && (ok ==> calls == old(calls) - 1)
      ensures files == if ok then (old(files) - {from})[to := old(files)[from]] else old(files)
    {
      if calls == 0 {
        return false;
      }
      calls := calls - 1;
      files := (files - {from})[to := files[from]];
      ok := true;
    }

    /** `write_atomic`: create, fill and rename a temporary file. The file
        itself has the new content or is untouched. */
    method WriteAtomic(f: File, data: Bytes) returns (ok: bool)
      requires !f.Tmp?
      modifies this
      ensures ok ==> SameKeys(files, old(files)[f := data])
      ensures !ok ==> SameKeys(files, old(files))
      ensures (ok <==> old(calls) >= 3) && (ok ==> calls == old(calls) - 3)
    {
      if calls == 0 {
        return false;
      }
      calls, files := calls - 1, files[Tmp(f) := []];
      if calls == 0 {
        files := files[Tmp(f) := if torn < |data| then data[..torn] else data];
        return false;
      }
      calls, files := calls - 1, files[Tmp(f) := data];
      ok := Rename(Tmp(f), f);
    }

    /** `load_raw_key`, absent and malformed told apart. */
    method LoadKey(k: Kind) returns (r: Result<P.Key, KeyError>)
      ensures Live(k) !in files ==> r == Err(Io)
      ensures Live(k) in files && |files[Live(k)]| != 32 ==> r == Err(BadKey(k, |files[Live(k)]|))
      ensures Live(k) in files && |files[Live(k)]| == 32 ==> r == Ok(files[Live(k)])
    {
      if Live(k) !in files {
        return Err(Io);
      }
      var bytes := files[Live(k)];
      if |bytes| != 32 {
        return Err(BadKey(k, |bytes|));
      }
      r := Ok(bytes);
    }

    /** `ensure_key_file`: an existing file is validated, never overwritten. */
    method EnsureKeyFile(k: Kind, generated: P.Key) returns (r: Result<bool, KeyError>)
      modifies this
      ensures Kept(old(files), files)
      ensures r.Ok? ==> SameKeys(files, if Live(k) in old(files) then old(files) else old(files)[Live(k) := generated])
      ensures r.Ok? ==> |files[Live(k)]| == 32 && (r.value <==> Live(k) !in old(files))
      ensures r.Err? ==> SameKeys(files, old(files))
      ensures r.Err? ==>
                || (r.error == Io && Live(k) !in files && old(calls) < 3)
                || (Live(k) in files && |files[Live(k)]| != 32 && r.error == BadKey(k, |files[Live(k)]|))
      ensures r.Ok? ==> calls == if r.value then old(calls) - 3 else old(calls)
      ensures SameStage(Progress(files, calls, r.Ok?), Ensured(Progress(old(files), old(calls), true), k, generated))
    {
      if Live(k) in files {
        var key := LoadKey(k);
        return if key.Ok? then Ok(false) else Err(key.error);
      }
      var ok := WriteAtomic(Live(k), generated);
      r := if ok then Ok(true) else Err(Io);
    }

    /** `ensure_data_key`: each of the two keys is created if it is missing,
        and one that is present is left as it is. */
    method EnsureDataKey(data: P.Key, chunkId: P.Key) returns (r: Result<bool, KeyError>)
      modifies this
      ensures Kept(old(files), files)
      ensures forall f | f in old(files) && !f.Tmp? :: f in files && files[f] == old(files)[f]
      ensures r.Ok? ==>
                && (r.value <==> Live(Data) !in old(files))
                && Live(Data) in files && Live(ChunkId) in files && |files[Live(Data)]| == 32 == |files[Live(ChunkId)]|
                && (Live(Data) !in old(files) ==> files[Live(Data)] == data)
                && (Live(ChunkId) !in old(files) ==> files[Live(ChunkId)] == chunkId)
      ensures r == Err(Io) ==> old(calls) < 6
      ensures r.Err? && r.error != Io ==> exists k :: Live(k) in old(files) && |old(files)[Live(k)]| != 32
      ensures SameStage(Progress(files, calls, r.Ok?), AfterEnsure(old(files), old(calls), data, chunkId))
    {
      var created := EnsureKeyFile(Data, data);
      if created.Err? {
        return created;
      }
      var second := EnsureKeyFile(ChunkId, chunkId);
      if second.Err? {
        return Err(second.error);
      }
      r := created;
    }

    /** `back_up_existing_keys`: both live files go to the first slot free for
        both. */
    method BackUpExistingKeys() returns (r: Result<File, KeyError>, ghost n: nat)
      modifies this
      ensures Kept(old(files), files)
      ensures r.Ok? ==> FirstFree(old(files), n) && files == PairAside(old(files), n)
      ensures r.Ok? ==> r.value == if Live(Data) in old(files) then Old(Data, n) else Old(ChunkId, n)
      ensures r == Err(NoBackupSlot) ==> files == old(files)
      ensures r == Err(NoBackupSlot) <==>
                || (forall m: nat | 1 <= m <= MAX_KEY_BACKUPS :: !SlotFree(old(files), m))
                || (Live(Data) !in old(files) && Live(ChunkId) !in old(files))
      ensures r.Err? ==> r.error == NoBackupSlot || (r.error == Io && old(calls) < 2)
      ensures r.Ok? ==> calls >= old(calls) - 2
      ensures !NoLive(old(files)) ==> SameStage(Progress(files, calls, r.Ok?), Aside(old(files), old(calls)))
    {
      n := 0;
      for slot := 1 to MAX_KEY_BACKUPS + 1
        invariant files == old(files) && calls == old(calls)
        invariant forall m: nat | 1 <= m < slot :: !SlotFree(files, m)
      {
        if SlotFree(files, slot) {
          n := slot;
          SlotIsFirst(files, slot);
          r := MovePair(slot);
          return;
        }
      }
      r := Err(NoBackupSlot);
    }

    method MovePair(n: nat) returns (r: Result<File, KeyError>)
      requires SlotFree(files, n)
      modifies this
      ensures Kept(old(files), files)
      ensures r.Ok? ==> files == PairAside(old(files), n)
      ensures r.Ok? ==> r.value == if Live(Data) in old(files) then Old(Data, n) else Old(ChunkId, n)
      ensures r == Err(NoBackupSlot) ==> files == old(files)
      ensures r == Err(NoBackupSlot) <==> Live(Data) !in old(files) && Live(ChunkId) !in old(files)
      ensures r.Err? ==> r.error == NoBackupSlot || (r.error == Io && old(calls) < 2)
      ensures r.Ok? ==> calls >= old(calls) - 2
      ensures !NoLive(old(files)) ==> SameStage(Progress(files, calls, r.Ok?), PairMoved(old(files), old(calls), n))
    {
      var preserved: Option<File> := None;
      MoveAsideKeeps(files, Data, n);
      ghost var middle := MoveAside(files, Data, n);
      if Live(Data) in files {
        var ok := Rename(Live(Data), Old(Data, n));
        if !ok {
          return Err(Io);
        }
        preserved := Some(Old(Data, n));
      }
      assert files == middle;
      MoveAsideKeeps(middle, ChunkId, n);
      KeptTransitive(old(files), middle, MoveAside(middle, ChunkId, n));
      if Live(ChunkId) in files {
        var ok := Rename(Live(ChunkId), Old(ChunkId, n));
        if !ok {
          return Err(Io);
        }
        if preserved.None? {
          preserved := Some(Old(ChunkId, n));
        }
      }
      r := if preserved.Some? then Ok(preserved.value) else Err(NoBackupSlot);
    }

    method LoadOptional(k: Kind) returns (r: Option<P.Key>)
      ensures r == if Live(k) in files && |files[Live(k)]| == 32 then Some(files[Live(k)]) else None
    {
      var key := LoadKey(k);
      r := if key.Ok? then Some(key.value) else None;
    }

    method InstallKeys(keys: KeyPair) returns (ok: bool)
      requires NoLive(files)
      modifies this
      ensures ok ==> SameKeys(files, WithKeys(old(files), keys))
      ensures ok <==> old(calls) >= 6
      ensures forall before | Kept(before, old(files)) :: Kept(before, files)
      ensures SameStage(Progress(files, calls, ok),
                        Wrote(Wrote(Progress(old(files), old(calls), true), Data, keys.data), ChunkId, keys.chunkId))
    {
      ghost var was := files;
      ok := WriteAtomic(Live(Data), keys.data);
      if ok {
        ok := WriteAtomic(Live(ChunkId), keys.chunkId);
      }
      forall before | Kept(before, was)
        ensures Kept(before, files)
      {
        InstallKeeps(before, was, files, keys);
      }
    }

    /** `import_key`. A keyfile that does not unlock changes nothing; keys equal
        to the live ones change nothing; otherwise the live pair, whatever it
        is, goes to one free slot and the imported pair is installed. */
    method ImportKey(p: P.Primitives, keyfile: Option<Bytes>, pass: Bytes)
      returns (r: Result<ImportOutcome, KeyError>, ghost n: nat)
      modifies this
      ensures Kept(old(files), files)
      ensures r.Ok? ==> keyfile.Some? && ImportKeyfile(p, keyfile.value, pass).Ok?
      ensures r.Ok? ==> SameKeys(files, WithKeys(
                if r.value.Replaced? then PairAside(old(files), n) else old(files),
                ImportKeyfile(p, keyfile.value, pass).value))
      ensures r.Ok? ==> (r.value.AlreadyCurrent? ==> files == old(files))
      ensures r.Ok? ==> (r.value.Installed? <==> NoLive(old(files)))
      ensures r.Ok? && r.value.Replaced? ==> FirstFree(old(files), n)
      ensures keyfile.Some? && ImportKeyfile(p, keyfile.value, pass).Err? ==>
                r == Err(Crypto(ImportKeyfile(p, keyfile.value, pass).error)) && files == old(files)
      ensures r.Err? ==>
                || (r.error == Io && (keyfile.None? || old(calls) < 8))
                || r.error.Crypto?
                || (r.error == NoBackupSlot && forall m: nat | 1 <= m <= MAX_KEY_BACKUPS :: !SlotFree(old(files), m))
      ensures SameStage(Progress(files, calls, r.Ok?), AfterImport(p, old(files), old(calls), keyfile, pass))
    {
      n := 0;
      if keyfile.None? {
        return Err(Io), n;
      }
      var imported := ImportKeyfile(p, keyfile.value, pass);
      if imported.Err? {
        return Err(Crypto(imported.error)), n;
      }
      var keys := imported.value;
      var existingData, existingChunk;
      existingData := LoadOptional(Data);
      existingChunk := LoadOptional(ChunkId);
      if existingData == Some(keys.data) && existingChunk == Some(keys.chunkId) {
        return Ok(AlreadyCurrent), n;
      }
      var outcome := Installed;
      if Live(Data) in files || Live(ChunkId) in files {
        var backedUp;
        backedUp, n := BackUpExistingKeys();
        if backedUp.Err? {
          return Err(backedUp.error), n;
        }
        outcome := Replaced(backedUp.value);
        AsideHasNoLive(old(files), n);
      }
      assert Kept(old(files), files);
      InstalledAlike(Progress(files, calls, true), Aside(old(files), old(calls)), keys);
      var ok := InstallKeys(keys);
      r := if ok then Ok(outcome) else Err(Io);
    }

    /** `export_key`: never over an existing file, and either the whole keyfile
        of the live pair or none. */
    method ExportKey(p: P.Primitives, pass: Bytes, params: P.KdfParams, salt: P.Salt, nonce: P.Nonce)
      returns (r: Result<(), KeyError>)
      modifies this
      ensures r.Err? ==> SameKeys(files, old(files))
      ensures r.Ok? <==> old(Paired(files)) && Output !in old(files) && old(calls) >= 3
                         && ExportKeyfile(p, old(LivePair(files)), pass, params, salt, nonce).Ok?
      ensures r.Ok? ==>
                SameKeys(files, old(files)[Output := ExportKeyfile(p, old(LivePair(files)), pass, params, salt, nonce).value])
    {
      var data := LoadKey(Data);
      if data.Err? {
        return Err(data.error);
      }
      var chunkId := LoadKey(ChunkId);
      if chunkId.Err? {
        return Err(chunkId.error);
      }
      if Output in files {
        return Err(OutputExists);
      }
      var file := WriteKeyfile(p, KeyPair(data.value, chunkId.value), pass, params, salt, nonce);
      if file.Err? {
        return Err(Crypto(file.error));
      }
      var ok := WriteAtomic(Output, file.value);
      r := if ok then Ok(()) else Err(Io);
    }
  }

  // ---- several machines, many calls -----------------------------------------------

  predicate SameLive(a: Files, b: Files, k: Kind) {
    Live(k) in a && Live(k) in b && b[Live(k)] == a[Live(k)]
  }

  lemma KeptAlways(a: Files, b: Files)
    ensures (forall f: File | f.Live? || f.Old? :: f in a ==> f in b && b[f] == a[f]) ==> Kept(a, b)
  {}

  /** Exporting on one machine and importing the keyfile on another installs
      the same two keys, and what the other machine had is kept. */
  method Migrate(p: P.Primitives, a: StateDir, b: StateDir, pass: Bytes, params: P.KdfParams, salt: P.Salt, nonce: P.Nonce)
    returns (r: Result<ImportOutcome, KeyError>)
    requires P.SealLaw(p) && a != b
    modifies a, b
    ensures Kept(old(a.files), a.files) && Kept(old(b.files), b.files)
    ensures r.Ok? ==> SameLive(old(a.files), b.files, Data) && SameLive(old(a.files), b.files, ChunkId)
  {
    var exported := a.ExportKey(p, pass, params, salt, nonce);
    KeptAlways(old(a.files), a.files);
    if exported.Err? {
      return Err(exported.error);
    }
    var keyfile := a.files[Output];
    ExportThenImport(p, old(LivePair(a.files)), pass, params, salt, nonce);
    ghost var n;
    r, n := b.ImportKey(p, Some(keyfile), pass);
    assert r.Ok? ==> ImportKeyfile(p, keyfile, pass).value == old(LivePair(a.files));
  }

  /** One use of the state directory, with the number of changing file-system
      calls that work before it fails or the machine stops. */
  datatype Use =
    | Ensure(works: nat, data: P.Key, chunkId: P.Key)
    | Import(works: nat, keyfile: Option<Bytes>, pass: Bytes)

  /** What a use that reports success has done. */
  ghost predicate Did(p: P.Primitives, use: Use, before: Files, after: Files) {
    && Live(Data) in after && Live(ChunkId) in after
    && match use
       case Ensure(_, data, chunkId) =>
         && after[Live(Data)] == (if Live(Data) in before then before[Live(Data)] else data)
         && after[Live(ChunkId)] == (if Live(ChunkId) in before then before[Live(ChunkId)] else chunkId)
       case Import(_, keyfile, pass) =>
         && keyfile.Some? && ImportKeyfile(p, keyfile.value, pass).Ok?
         && after[Live(Data)] == ImportKeyfile(p, keyfile.value, pass).value.data
         && after[Live(ChunkId)] == ImportKeyfile(p, keyfile.value, pass).value.chunkId
  }

  /** What a use leaves behind, wherever it stops. */
  ghost function AfterUse(p: P.Primitives, use: Use, files: Files): Progress {
    match use
    case Ensure(works, data, chunkId) => AfterEnsure(files, works, data, chunkId)
    case Import(works, keyfile, pass) => AfterImport(p, files, works, keyfile, pass)
  }

  ghost predicate OneUse(p: P.Primitives, use: Use, before: Files, after: Files, ok: bool) {
    && SameKeys(after, AfterUse(p, use, before).files) && ok == AfterUse(p, use, before).going
    && (ok ==> Did(p, use, before, after))
  }

  /** One use, in its own process. */
  method UseOnce(p: P.Primitives, files: Files, use: Use) returns (after: Files, ok: bool)
    ensures Kept(files, after) && OneUse(p, use, files, after, ok)
  {
    var dir := new StateDir(files, use.works, 0);
    match use {
      case Ensure(_, data, chunkId) =>
        var r := dir.EnsureDataKey(data, chunkId);
        ok := r.Ok?;
      case Import(_, keyfile, pass) =>
        var r;
        ghost var n;
        r, n := dir.ImportKey(p, keyfile, pass);
        ok := r.Ok?;
    }
    after := dir.files;
  }

  /** The uses were made in turn from `files` to `last`: `done` says which
      reported success, and nothing that was ever held is lost. */
  ghost predicate Used(p: P.Primitives, uses: seq<Use>, files: Files, last: Files, done: seq<bool>, seen: seq<Files>) {
    && |seen| == |uses| + 1 == |done| + 1 && seen[0] == files && seen[|uses|] == last
    && (forall i | 0 <= i < |uses| :: OneUse(p, uses[i], seen[i], seen[i + 1], done[i]))
    && (forall i | 0 <= i <= |uses| :: Kept(seen[i], last))
  }

  lemma KeptAll(seen: seq<Files>, last: Files, next: Files)
    requires (forall i | 0 <= i < |seen| :: Kept(seen[i], last)) && Kept(last, next)
    ensures forall i | 0 <= i < |seen| + 1 :: Kept((seen + [next])[i], next)
  {
    forall i | 0 <= i < |seen|
      ensures Kept(seen[i], next)
    {
      KeptTransitive(seen[i], last, next);
    }
    KeptAlways(next, next);
  }

  lemma UsedSnoc(p: P.Primitives, uses: seq<Use>, files: Files, last: Files, done: seq<bool>, seen: seq<Files>,
                 use: Use, next: Files, ok: bool)
    ensures Used(p, uses, files, last, done, seen) && Kept(last, next) && OneUse(p, use, last, next, ok) ==>
              Used(p, uses + [use], files, next, done + [ok], seen + [next])
  {
    if Used(p, uses, files, last, done, seen) && Kept(last, next) && OneUse(p, use, last, next, ok) {
      var uses', done', seen' := uses + [use], done + [ok], seen + [next];
      KeptAll(seen, last, next);
      forall i | 0 <= i < |uses'|
        ensures OneUse(p, uses'[i], seen'[i], seen'[i + 1], done'[i])
      {
        if i < |uses| {
          assert uses'[i] == uses[i] && seen'[i] == seen[i] && seen'[i + 1] == seen[i + 1] && done'[i] == done[i];
        }
      }
    }
  }

  /** Over any sequence of uses, each failing or crashing wherever it will, no
      key that was ever live is lost: it is live, or in an old slot of its
      kind. `seen` are the directories after each use. */
  method UseAll(p: P.Primitives, files: Files, uses: seq<Use>)
    returns (last: Files, done: seq<bool>, ghost seen: seq<Files>)
    ensures Used(p, uses, files, last, done, seen) && Kept(files, last)
  {
    last, done, seen := files, [], [files];
    KeptAlways(files, files);
    for i := 0 to |uses|
      invariant Used(p, uses[..i], files, last, done, seen)
    {
      var next, ok := UseOnce(p, last, uses[i]);
      UsedSnoc(p, uses[..i], files, last, done, seen, uses[i], next, ok);
      assert uses[..i + 1] == uses[..i] + [uses[i]];
      last, done, seen := next, done + [ok], seen + [next];
    }
    assert uses[..|uses|] == uses;
  }
}
