/** The passphrase-protected keyfile: its byte layout, sealed under a key
    derived from the passphrase with the header as associated data. */
module Keyfile {
  import opened Bytes
  import opened Wrappers
  import opened Primitives

  const MAGIC: Bytes := [0x42, 0x55, 0x53, 0x59, 0x4E, 0x43, 0x52, 0x4B]
  const VERSION: byte := 2
  const HEADER_LEN: nat := 37
  const PAYLOAD_LEN: nat := 64
  const KEYFILE_LEN: nat := HEADER_LEN + NONCE_LEN + PAYLOAD_LEN + TAG_LEN

  datatype KeyPair = KeyPair(data: Key, chunkId: Key)

  function Header(params: KdfParams, salt: Salt): (h: Bytes)
    ensures |h| == HEADER_LEN
  {
    MAGIC + ([VERSION] + (U32Le(params.mCostKib) + (U32Le(params.tCost) + (U32Le(params.pCost) + salt))))
  }

  function ParamsOf(header: Bytes): KdfParams
    requires |header| >= HEADER_LEN
  {
    KdfParams(ReadU32(header[9..13]), ReadU32(header[13..17]), ReadU32(header[17..21]))
  }

  function SaltOf(header: Bytes): Salt
    requires |header| >= HEADER_LEN
  {
    header[21..37]
  }

  /** The header's fields are read back from where they were put. */
  lemma HeaderReadsBack(params: KdfParams, salt: Salt, rest: Bytes)
    ensures var file := Header(params, salt) + rest;
            && file[..8] == MAGIC && file[8] == VERSION && file[..HEADER_LEN] == Header(params, salt)
            && file[HEADER_LEN..] == rest && ParamsOf(file) == params && SaltOf(file) == salt
  {
    var file := Header(params, salt) + rest;
    WireIntegers(params.mCostKib, 0, 0);
    WireIntegers(params.tCost, 0, 0);
    WireIntegers(params.pCost, 0, 0);
    assert file[9..13] == U32Le(params.mCostKib);
    assert file[13..17] == U32Le(params.tCost);
    assert file[17..21] == U32Le(params.pCost);
    assert file[21..37] == salt;
  }

  /** Any bytes with the magic and the version are the header of the fields
      read from them. */
  lemma HeaderIsCanonical(header: Bytes)
    requires |header| == HEADER_LEN && header[..8] == MAGIC && header[8] == VERSION
    ensures Header(ParamsOf(header), SaltOf(header)) == header
  {
    var any: Bytes := seq(8, _ => 0);
    WireIntegersUnique(header[9..13], any);
    WireIntegersUnique(header[13..17], any);
    WireIntegersUnique(header[17..21], any);
    assert header == header[..8] + ([header[8]] + (header[9..13] + (header[13..17] + (header[17..21] + header[21..37]))));
  }

  function Payload(keys: KeyPair): Bytes { keys.data + keys.chunkId }

  function ExportKeyfile(p: Primitives, keys: KeyPair, pass: Bytes, params: KdfParams, salt: Salt, nonce: Nonce)
    : Result<Bytes, CryptoError>
  {
    match p.kdf(pass, salt, params)
    case None => Err(Kdf)
    case Some(kek) =>
      var sealed :- Seal(p, kek, Header(params, salt), Payload(keys), nonce);
      Ok(Header(params, salt) + sealed)
  }

  /** `import_keyfile`. */
  function ImportKeyfile(p: Primitives, file: Bytes, pass: Bytes): Result<KeyPair, CryptoError> {
    if |file| < 9 || file[..8] != MAGIC then Err(KeyfileFormat)
    else if file[8] != VERSION then Err(KeyfileVersion(file[8]))
    else if |file| != KEYFILE_LEN then Err(KeyfileFormat)
    else match p.kdf(pass, SaltOf(file), ParamsOf(file))
      case None => Err(Kdf)
      case Some(kek) =>
        match Open(p, kek, file[..HEADER_LEN], file[HEADER_LEN..])
        case Err(_) => Err(KeyfileUnlock)
        case Ok(payload) =>
          if |payload| != PAYLOAD_LEN then Err(KeyfileFormat) else Ok(KeyPair(payload[..32], payload[32..]))
  }

  /** An exported keyfile is 141 bytes and, with its passphrase, gives back both
      keys. */
  lemma ExportThenImport(p: Primitives, keys: KeyPair, pass: Bytes, params: KdfParams, salt: Salt, nonce: Nonce)
    requires SealLaw(p)
    ensures var r := ExportKeyfile(p, keys, pass, params, salt, nonce);
            r.Ok? ==> |r.value| == 141 && ImportKeyfile(p, r.value, pass) == Ok(keys)
  {
    var r := ExportKeyfile(p, keys, pass, params, salt, nonce);
    if r.Ok? {
      var kek := p.kdf(pass, salt, params).value;
      SealThenOpen(p, kek, Header(params, salt), Payload(keys), nonce);
      HeaderReadsBack(params, salt, Seal(p, kek, Header(params, salt), Payload(keys), nonce).value);
      assert Payload(keys)[..32] == keys.data && Payload(keys)[32..] == keys.chunkId;
    }
  }

  /** `sealed` under the header of `params` and `salt` opens to these keys. */
  ghost predicate Unlocks(p: Primitives, pass: Bytes, params: KdfParams, salt: Salt, sealed: Bytes, keys: KeyPair) {
    && |sealed| == KEYFILE_LEN - HEADER_LEN
    && p.kdf(pass, salt, params).Some?
    && Open(p, p.kdf(pass, salt, params).value, Header(params, salt), sealed) == Ok(Payload(keys))
  }

  /** Only that layout is accepted: an import yields keys exactly when the file
      is a version 2 header followed by a payload of those keys that the
      passphrase unlocks under that very header. */
  lemma ImportsIff(p: Primitives, file: Bytes, pass: Bytes, keys: KeyPair)
    ensures ImportKeyfile(p, file, pass) == Ok(keys)
       <==> exists params: KdfParams, salt: Salt, sealed: Bytes ::
              Unlocks(p, pass, params, salt, sealed, keys) && file == Header(params, salt) + sealed
  {
    if ImportKeyfile(p, file, pass) == Ok(keys) {
      var header, sealed := file[..HEADER_LEN], file[HEADER_LEN..];
      assert header[..8] == file[..8];
      assert header[9..13] == file[9..13] && header[13..17] == file[13..17] && header[17..21] == file[17..21];
      assert header[21..37] == file[21..37];
      HeaderIsCanonical(header);
      assert ParamsOf(header) == ParamsOf(file) && SaltOf(header) == SaltOf(file);
      var payload := Open(p, p.kdf(pass, SaltOf(file), ParamsOf(file)).value, header, sealed).value;
      assert payload == payload[..32] + payload[32..];
      assert Unlocks(p, pass, ParamsOf(file), SaltOf(file), sealed, keys);
      assert file == header + sealed;
    }
    if params: KdfParams, salt: Salt, sealed: Bytes :|
      Unlocks(p, pass, params, salt, sealed, keys) && file == Header(params, salt) + sealed
    {
      HeaderReadsBack(params, salt, sealed);
      assert Payload(keys)[..32] == keys.data && Payload(keys)[32..] == keys.chunkId;
    }
  }

  /** `export_keyfile`, appending to its buffers. */
  method WriteKeyfile(p: Primitives, keys: KeyPair, pass: Bytes, params: KdfParams, salt: Salt, nonce: Nonce)
    returns (r: Result<Bytes, CryptoError>)
    ensures r == ExportKeyfile(p, keys, pass, params, salt, nonce)
  {
    var kek := p.kdf(pass, salt, params);
    if kek.None? {
      return Err(Kdf);
    }
    var header := MAGIC;
    header := header + [VERSION];
    header := header + U32Le(params.mCostKib);
    header := header + U32Le(params.tCost);
    header := header + U32Le(params.pCost);
    header := header + salt;
    assert header == Header(params, salt);
    var payload: Bytes := [];
    payload := payload + keys.data;
    payload := payload + keys.chunkId;
    assert payload == Payload(keys);
    var sealed := Seal(p, kek.value, header, payload, nonce);
    if sealed.Err? {
      return Err(sealed.error);
    }
    r := Ok(header + sealed.value);
  }
}
