/** Chunk identities, their lowercase hex names, and the object files those
    names address. */
module ChunkIds {
  import opened Bytes
  import opened Wrappers

  const ID_LEN: nat := 32

  type ChunkId = b: Bytes | |b| == ID_LEN witness seq(ID_LEN, _ => 0)

  datatype ParseError = BadLength(count: nat) | BadChar(c: char)

  function HexDigit(d: nat): char
    requires d < 16
  {
    if d < 10 then ('0' as int + d) as char else ('a' as int + d - 10) as char
  }

  /** The name `Display` prints: two lowercase digits a byte. */
  function Hex(b: Bytes): (s: string)
    ensures |s| == 2 * |b|
  {
    seq(2 * |b|, i requires 0 <= i < 2 * |b| => HexDigit(if i % 2 == 0 then b[i / 2] / 16 else b[i / 2] % 16))
  }

  /** `char::to_digit(16)`: upper case is accepted too. */
  function DigitValue(c: char): (v: Option<nat>)
    ensures v.Some? ==> v.value < 16
  {
    if '0' <= c <= '9' then Some(c as int - '0' as int)
    else if 'a' <= c <= 'f' then Some(c as int - 'a' as int + 10)
    else if 'A' <= c <= 'F' then Some(c as int - 'A' as int + 10)
    else None
  }

  predicate IsHex(s: string) {
    forall i | 0 <= i < |s| :: DigitValue(s[i]).Some?
  }

  function PairValue(a: char, b: char): (n: byte)
    requires DigitValue(a).Some? && DigitValue(b).Some?
  {
    16 * DigitValue(a).value + DigitValue(b).value
  }

  function Unhex(s: string): (b: Bytes)
    requires |s| % 2 == 0 && IsHex(s)
    ensures |b| == |s| / 2
  {
    seq(|s| / 2, i requires 0 <= i < |s| / 2 => PairValue(s[2 * i], s[2 * i + 1]))
  }

  lemma DigitValueHexDigit(d: nat)
    requires d < 16
    ensures DigitValue(HexDigit(d)) == Some(d)
  {}

  lemma PairValueHexDigits(n: byte)
    ensures DigitValue(HexDigit(n / 16)).Some? && DigitValue(HexDigit(n % 16)).Some?
    ensures PairValue(HexDigit(n / 16), HexDigit(n % 16)) == n
  {
    DigitValueHexDigit(n / 16);
    DigitValueHexDigit(n % 16);
  }

  lemma UnhexHex(b: Bytes)
    ensures IsHex(Hex(b)) && Unhex(Hex(b)) == b
  {
    var s := Hex(b);
    forall i | 0 <= i < |s|
      ensures DigitValue(s[i]).Some?
    {
      PairValueHexDigits(b[i / 2]);
    }
    forall i | 0 <= i < |b|
      ensures Unhex(s)[i] == b[i]
    {
      PairValueHexDigits(b[i]);
    }
  }

  function Lower(c: char): char {
    if 'A' <= c <= 'F' then (c as int + 32) as char else c
  }

  function LowerAll(s: string): (l: string)
    ensures |l| == |s|
  {
    seq(|s|, i requires 0 <= i < |s| => Lower(s[i]))
  }

  lemma HexDigitDigitValue(c: char)
    requires DigitValue(c).Some?
    ensures HexDigit(DigitValue(c).value) == Lower(c)
  {}

  lemma HexDigitsPairValue(a: char, b: char)
    requires DigitValue(a).Some? && DigitValue(b).Some?
    ensures HexDigit(PairValue(a, b) / 16) == Lower(a) && HexDigit(PairValue(a, b) % 16) == Lower(b)
  {
    HexDigitDigitValue(a);
    HexDigitDigitValue(b);
  }

  lemma HexUnhex(s: string)
    requires |s| % 2 == 0 && IsHex(s)
    ensures Hex(Unhex(s)) == LowerAll(s)
  {
    forall i | 0 <= i < |s|
      ensures Hex(Unhex(s))[i] == Lower(s[i])
    {
      HexDigitsPairValue(s[2 * (i / 2)], s[2 * (i / 2) + 1]);
    }
  }

  /** `Display`: the loop writes exactly `Hex`. */
  method Display(id: ChunkId) returns (s: string)
    ensures s == Hex(id)
  {
    s := "";
    for i := 0 to ID_LEN
      invariant s == Hex(id)[..2 * i]
    {
      s := s + [HexDigit(id[i] / 16)] + [HexDigit(id[i] % 16)];
    }
  }

  /** `FromStr`: accepts exactly 64 hex digits of either case, and on a bad
      digit names the first one. */
  method FromStr(s: string) returns (r: Result<ChunkId, ParseError>)
    ensures |s| != 64 ==> r == Err(BadLength(|s|))
    ensures |s| == 64 && IsHex(s) ==> r == Ok(Unhex(s))
    ensures |s| == 64 && !IsHex(s) ==>
              exists k :: 0 <= k < 64 && IsHex(s[..k]) && DigitValue(s[k]).None? && r == Err(BadChar(s[k]))
  {
    if |s| != 64 {
      return Err(BadLength(|s|));
    }
    var bytes: Bytes := [];
    for i := 0 to ID_LEN
      invariant |bytes| == i && forall k | 0 <= k < 2 * i :: DigitValue(s[k]).Some?
      invariant forall k | 0 <= k < i :: bytes[k] == PairValue(s[2 * k], s[2 * k + 1])
    {
      var value := 0;
      for j := 0 to 2
        invariant forall k | 0 <= k < 2 * i + j :: DigitValue(s[k]).Some?
        invariant value == if j == 0 then 0
                           else if j == 1 then DigitValue(s[2 * i]).value
                           else PairValue(s[2 * i], s[2 * i + 1])
      {
        var c := s[2 * i + j];
        var digit := DigitValue(c);
        if digit.None? {
          assert IsHex(s[..2 * i + j]);
          return Err(BadChar(c));
        }
        value := 16 * value + digit.value;
      }
      bytes := bytes + [value];
    }
    assert bytes == Unhex(s);
    r := Ok(bytes);
  }

  /** Two identities with one name are one identity. */
  lemma HexInjective(a: ChunkId, b: ChunkId)
    requires Hex(a) == Hex(b)
    ensures a == b
  {
    UnhexHex(a);
    UnhexHex(b);
  }

  /** A file under `objects/`: its shard directory and its name. */
  datatype Path = Path(shard: string, name: string)

  const TMP_PREFIX: string := ".tmp-"

  function ObjectPath(id: ChunkId): Path {
    Path(Hex(id)[..2], Hex(id))
  }

  function TmpPath(id: ChunkId, unique: string): Path {
    Path(Hex(id)[..2], TMP_PREFIX + unique)
  }

  /** What the sweep on open looks for. */
  predicate IsTmp(p: Path) {
    TMP_PREFIX <= p.name
  }

  /** Distinct chunks never share an object file, and no object file is ever
      mistaken for a temporary one. */
  lemma ObjectPathsDistinct(a: ChunkId, b: ChunkId)
    ensures ObjectPath(a) == ObjectPath(b) <==> a == b
    ensures !IsTmp(ObjectPath(a))
  {
    if ObjectPath(a) == ObjectPath(b) {
      HexInjective(a, b);
    }
    assert Hex(a)[0] == HexDigit(a[0] / 16);
    assert TMP_PREFIX[0] == '.';
  }
}
