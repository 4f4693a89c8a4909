/** The chunk index record and its 16-byte wire value. */
module Index {
  import opened Bytes

  /** `refcount` saturates at the largest `u64`, see `Tables.Bump`. */
  datatype IndexEntry = IndexEntry(chunkLen: u64, refcount: u64)

  const VALUE_SIZE: nat := 16
  const WIRE_SIZE: nat := 32 + VALUE_SIZE

  function WireValue(e: IndexEntry): (b: Bytes)
    ensures |b| == VALUE_SIZE
  {
    U64Le(e.chunkLen) + U64Le(e.refcount)
  }

  /** `decode_entry`: a value of any other width reads as the zero record. */
  function DecodeEntry(raw: Bytes): IndexEntry {
    if |raw| == VALUE_SIZE then IndexEntry(ReadU64(raw[..8]), ReadU64(raw[8..]))
    else IndexEntry(0, 0)
  }

  lemma EntryRoundTrip(e: IndexEntry)
    ensures DecodeEntry(WireValue(e)) == e
  {
    WireIntegers(0, e.chunkLen, 0);
    WireIntegers(0, e.refcount, 0);
    assert WireValue(e)[..8] == U64Le(e.chunkLen) && WireValue(e)[8..] == U64Le(e.refcount);
  }

  /** Every 16-byte value is the record of exactly one entry; a value of any
      other width is indistinguishable from the zero record. */
  lemma WireRoundTrip(raw: Bytes)
    ensures |raw| == VALUE_SIZE <==> WireValue(DecodeEntry(raw)) == raw
  {
    if |raw| == VALUE_SIZE {
      WireIntegersUnique(raw[..4], raw[..8]);
      WireIntegersUnique(raw[..4], raw[8..]);
      assert raw == raw[..8] + raw[8..];
    }
  }

  /** `to_wire_value`: fills a 16-byte buffer in place. */
  method ToWireValue(e: IndexEntry) returns (out: array<byte>)
    ensures fresh(out) && out[..] == WireValue(e)
  {
    out := new byte[VALUE_SIZE];
    forall i | 0 <= i < 8 {
      out[i] := U64Le(e.chunkLen)[i];
    }
    forall i | 8 <= i < 16 {
      out[i] := U64Le(e.refcount)[i - 8];
    }
    assert out[..8] == U64Le(e.chunkLen);
    assert out[8..] == U64Le(e.refcount);
    assert out[..] == out[..8] + out[8..];
  }
}
