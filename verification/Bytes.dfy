/** Bytes, fixed-width integers and the little- and big-endian wire forms that
    every record of the store is built from. */
module Bytes {
  type byte = x: int | 0 <= x < 256
  type Bytes = seq<byte>

  const U32_MAX: nat := 0xFFFF_FFFF
  const U64_MAX: nat := 0xFFFF_FFFF_FFFF_FFFF
  const I64_MAX: int := 0x7FFF_FFFF_FFFF_FFFF
  const I64_MIN: int := -0x8000_0000_0000_0000

  type u32 = x: int | 0 <= x <= U32_MAX
  type u64 = x: int | 0 <= x <= U64_MAX
  type i64 = x: int | I64_MIN <= x <= I64_MAX

  /** The source's `i64::saturating_sub`. */
  function SatSub(a: i64, b: i64): i64 {
    if a - b > I64_MAX then I64_MAX else if a - b < I64_MIN then I64_MIN else a - b
  }

  function Pow256(k: nat): (p: nat)
    ensures 0 < p
  {
    if k == 0 then 1 else 256 * Pow256(k - 1)
  }

  lemma Pow256Values()
    ensures Pow256(4) == U32_MAX + 1
    ensures Pow256(8) == U64_MAX + 1
    ensures Pow256(16) == 0x1_0000_0000_0000_0000_0000_0000_0000_0000
  {
    assert Pow256(4) == 256 * Pow256(3) == 65536 * Pow256(2);
    assert Pow256(8) == 256 * Pow256(7) == 65536 * Pow256(6);
    assert Pow256(6) == 256 * Pow256(5) == 65536 * Pow256(4);
    assert Pow256(12) == 256 * Pow256(11) == 65536 * Pow256(10);
    assert Pow256(10) == 256 * Pow256(9) == 65536 * Pow256(8);
    assert Pow256(16) == 256 * Pow256(15) == 65536 * Pow256(14);
    assert Pow256(14) == 256 * Pow256(13) == 65536 * Pow256(12);
  }

  /** The `k` low-order bytes of `n`, least significant first. */
  function ToLe(n: nat, k: nat): (b: Bytes)
    ensures |b| == k
  {
    if k == 0 then [] else [n % 256] + ToLe(n / 256, k - 1)
  }

  function FromLe(b: Bytes): nat {
    if b == [] then 0 else b[0] + 256 * FromLe(b[1..])
  }

  /** Writing then reading a number that fits its width gives it back. */
  lemma {:induction false} LeRoundTrip(n: nat, k: nat)
    requires n < Pow256(k)
    ensures FromLe(ToLe(n, k)) == n
  {
    if k > 0 {
      LeRoundTrip(n / 256, k - 1);
      assert ToLe(n, k)[1..] == ToLe(n / 256, k - 1);
    }
  }

  /** Reading then writing `b` gives `b` back, so no two byte strings of one
      width mean the same number. */
  lemma {:induction false} LeUnique(b: Bytes)
    ensures FromLe(b) < Pow256(|b|)
    ensures ToLe(FromLe(b), |b|) == b
  {
    if b != [] {
      LeUnique(b[1..]);
      assert FromLe(b) % 256 == b[0] && FromLe(b) / 256 == FromLe(b[1..]);
      assert b == [b[0]] + b[1..];
    }
  }

  /** The `k` low-order bytes of `n`, most significant first (a ULID's
      standard binary form). */
  function ToBe(n: nat, k: nat): (b: Bytes)
    ensures |b| == k
  {
    if k == 0 then [] else ToBe(n / 256, k - 1) + [n % 256]
  }

  function FromBe(b: Bytes): nat {
    if b == [] then 0 else 256 * FromBe(b[..|b| - 1]) + b[|b| - 1]
  }

  lemma {:induction false} BeRoundTrip(n: nat, k: nat)
    requires n < Pow256(k)
    ensures FromBe(ToBe(n, k)) == n
  {
    if k > 0 {
      BeRoundTrip(n / 256, k - 1);
      assert ToBe(n, k)[..k - 1] == ToBe(n / 256, k - 1);
    }
  }

  lemma {:induction false} BeUnique(b: Bytes)
    ensures FromBe(b) < Pow256(|b|)
    ensures ToBe(FromBe(b), |b|) == b
  {
    if b != [] {
      var k := |b| - 1;
      BeUnique(b[..k]);
      assert FromBe(b) % 256 == b[k] && FromBe(b) / 256 == FromBe(b[..k]);
      assert b == b[..k] + [b[k]];
    }
  }

  function U32Le(n: u32): (b: Bytes) ensures |b| == 4 { ToLe(n, 4) }

  function U64Le(n: u64): (b: Bytes) ensures |b| == 8 { ToLe(n, 8) }

  /** Two's complement, least significant byte first. */
  function I64Le(n: i64): (b: Bytes) ensures |b| == 8 {
    ToLe(if n < 0 then n + U64_MAX + 1 else n, 8)
  }

  function ReadU32(b: Bytes): (n: u32)
    requires |b| == 4
  {
    LeUnique(b); Pow256Values();
    FromLe(b)
  }

  function ReadU64(b: Bytes): (n: u64)
    requires |b| == 8
  {
    LeUnique(b); Pow256Values();
    FromLe(b)
  }

  function ReadI64(b: Bytes): (n: i64)
    requires |b| == 8
  {
    LeUnique(b); Pow256Values();
    var n := FromLe(b);
    if n > I64_MAX then n - U64_MAX - 1 else n
  }

  lemma WireIntegers(a: u32, b: u64, c: i64)
    ensures ReadU32(U32Le(a)) == a
    ensures ReadU64(U64Le(b)) == b
    ensures ReadI64(I64Le(c)) == c
  {
    Pow256Values();
    LeRoundTrip(a, 4);
    LeRoundTrip(b, 8);
    LeRoundTrip(if c < 0 then c + U64_MAX + 1 else c, 8);
  }

  lemma WireIntegersUnique(a: Bytes, b: Bytes)
    requires |a| == 4 && |b| == 8
    ensures U32Le(ReadU32(a)) == a
    ensures U64Le(ReadU64(b)) == b
    ensures I64Le(ReadI64(b)) == b
  {
    LeUnique(a);
    LeUnique(b);
    Pow256Values();
  }

  /** All of `parts`, one after the other. */
  function Concat(parts: seq<Bytes>): Bytes {
    if parts == [] then [] else parts[0] + Concat(parts[1..])
  }

  lemma {:induction false} ConcatSnoc(parts: seq<Bytes>, last: Bytes)
    ensures Concat(parts + [last]) == Concat(parts) + last
  {
    if parts == [] {
      assert parts + [last] == [last] && Concat([last]) == last + Concat([]);
    } else {
      ConcatSnoc(parts[1..], last);
      assert (parts + [last])[1..] == parts[1..] + [last];
    }
  }

  lemma ConcatLast(parts: seq<Bytes>)
    requires parts != []
    ensures |Concat(parts)| == |Concat(parts[..|parts| - 1])| + |parts[|parts| - 1]|
  {
    var k := |parts| - 1;
    ConcatSnoc(parts[..k], parts[k]);
    assert parts == parts[..k] + [parts[k]];
  }
}
