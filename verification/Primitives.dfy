/** The primitives the client is built on but does not define: AEAD, key
    derivation, the keyed hash, compressors and the content-defined chunker.
    They are parameters, constrained only by the laws below. */
module Primitives {
  import opened Bytes
  import opened Wrappers
  import opened ChunkIds

  type Key = b: Bytes | |b| == 32 witness seq(32, _ => 0)
  type Nonce = b: Bytes | |b| == NONCE_LEN witness seq(NONCE_LEN, _ => 0)
  type Salt = b: Bytes | |b| == 16 witness seq(16, _ => 0)

  const NONCE_LEN: nat := 24
  const TAG_LEN: nat := 16
  const BLOB_OVERHEAD: nat := NONCE_LEN + TAG_LEN

  datatype KdfParams = KdfParams(mCostKib: u32, tCost: u32, pCost: u32)

  /** `seal`/`open` are XChaCha20-Poly1305 (key, nonce, associated data,
      text), `kdf` Argon2id, `keyed` keyed BLAKE3, `cdc` FastCDC under one
      configuration. */
  datatype Primitives = Primitives(
    seal: (Key, Nonce, Bytes, Bytes) -> Option<Bytes>,
    open: (Key, Nonce, Bytes, Bytes) -> Option<Bytes>,
    kdf: (Bytes, Salt, KdfParams) -> Option<Key>,
    keyed: (Key, Bytes) -> ChunkId,
    zstd: (Bytes, int) -> Option<Bytes>,
    unzstd: Bytes -> Option<Bytes>,
    lz4Len: Bytes -> nat,
    cdc: Bytes -> seq<Bytes>)

  ghost predicate SealLaw(p: Primitives) {
    forall k: Key, n: Nonce, aad: Bytes, text: Bytes :: p.seal(k, n, aad, text).Some? ==>
      && |p.seal(k, n, aad, text).value| == |text| + TAG_LEN
      && p.open(k, n, aad, p.seal(k, n, aad, text).value) == Some(text)
  }

  ghost predicate ZstdLaw(p: Primitives) {
    forall data: Bytes, level: int :: p.zstd(data, level).Some? ==>
      p.unzstd(p.zstd(data, level).value) == Some(data)
  }

  ghost predicate ChunkerLaw(p: Primitives) {
    forall data: Bytes :: Concat(p.cdc(data)) == data
  }

  ghost predicate Lawful(p: Primitives) {
    SealLaw(p) && ZstdLaw(p) && ChunkerLaw(p)
  }

  /** No two of the plaintexts in `corpus` share an identity. (No 32-byte hash
      can promise this of all plaintexts.) */
  ghost predicate CollisionFree(p: Primitives, key: Key, corpus: iset<Bytes>) {
    forall a, b {:trigger SameIdentity(p, key, a, b)} ::
      a in corpus && b in corpus && SameIdentity(p, key, a, b) ==> a == b
  }

  ghost predicate SameIdentity(p: Primitives, key: Key, a: Bytes, b: Bytes) {
    p.keyed(key, a) == p.keyed(key, b)
  }

  /** Stand-ins that meet the laws, with a compressor that pads each input by
      `pad` bytes. */
  ghost function Padding(pad: nat): Primitives {
    var tag: Bytes := seq(TAG_LEN, _ => 0);
    var tail: Bytes := seq(pad, _ => 0);
    Primitives(
      (k: Key, n: Nonce, aad: Bytes, text: Bytes) => Some(text + tag),
      (k: Key, n: Nonce, aad: Bytes, sealed: Bytes) =>
        if |sealed| < TAG_LEN then None else Some(sealed[..|sealed| - TAG_LEN]),
      (pass: Bytes, salt: Salt, params: KdfParams) => None,
      (k: Key, data: Bytes) => k,
      (data: Bytes, level: int) => Some(data + tail),
      (data: Bytes) => if |data| < pad then None else Some(data[..|data| - pad]),
      (data: Bytes) => |data|,
      (data: Bytes) => [data])
  }

  lemma PrefixOfAppended(tail: Bytes)
    ensures forall text: Bytes :: (text + tail)[..|text + tail| - |tail|] == text
  {}

  /** The laws can be met. */
  lemma PaddingIsLawful(pad: nat)
    ensures Lawful(Padding(pad))
  {
    PrefixOfAppended(seq(TAG_LEN, _ => 0));
    PrefixOfAppended(seq(pad, _ => 0));
    forall data: Bytes
      ensures Concat([data]) == data
    {
      assert Concat([data]) == data + Concat([]);
    }
  }

  // ---- sealed blobs ---------------------------------------------------------

  datatype CryptoError =
    | Encrypt
    | Decrypt
    | BlobTooShort(got: nat)
    | Kdf
    | KeyfileFormat
    | KeyfileVersion(version: byte)
    | KeyfileUnlock

  /** `seal`: the nonce, then the ciphertext and tag. */
  function Seal(p: Primitives, key: Key, aad: Bytes, text: Bytes, nonce: Nonce): Result<Bytes, CryptoError> {
    match p.seal(key, nonce, aad, text)
    case None => Err(Encrypt)
    case Some(c) => Ok(nonce + c)
  }

  /** `open`. */
  function Open(p: Primitives, key: Key, aad: Bytes, blob: Bytes): Result<Bytes, CryptoError> {
    if |blob| < BLOB_OVERHEAD then Err(BlobTooShort(|blob|))
    else match p.open(key, blob[..NONCE_LEN], aad, blob[NONCE_LEN..])
      case None => Err(Decrypt)
      case Some(text) => Ok(text)
  }

  /** A sealed blob opens, under the same key and associated data, to what
      was sealed, and is longer than it by the fixed overhead. */
  lemma SealThenOpen(p: Primitives, key: Key, aad: Bytes, text: Bytes, nonce: Nonce)
    requires SealLaw(p)
    ensures var r := Seal(p, key, aad, text, nonce);
            r.Ok? ==> |r.value| == |text| + BLOB_OVERHEAD && Open(p, key, aad, r.value) == Ok(text)
  {
    if p.seal(key, nonce, aad, text).Some? {
      var c := p.seal(key, nonce, aad, text).value;
      var blob := nonce + c;
      assert blob[..NONCE_LEN] == nonce && blob[NONCE_LEN..] == c;
    }
  }
}
