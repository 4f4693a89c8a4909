/** Which byte strings are text: the well-formed sequences of section 4 of
    RFC 3629. */
module Utf8 {
  import opened Bytes

  predicate IsTail(b: Bytes, i: nat) {
    i < |b| && 0x80 <= b[i] <= 0xBF
  }

  /** The length of the well-formed character that starts `b`, or 0. */
  function CharLen(b: Bytes): (n: nat)
    ensures n <= |b|
  {
    if b == [] then 0
    else if b[0] <= 0x7F then 1
    else if 0xC2 <= b[0] <= 0xDF && IsTail(b, 1) then 2
    else if 0xE0 <= b[0] <= 0xEF && IsTail(b, 1) && IsTail(b, 2)
      && (b[0] == 0xE0 ==> 0xA0 <= b[1]) && (b[0] == 0xED ==> b[1] <= 0x9F) then 3
    else if 0xF0 <= b[0] <= 0xF4 && IsTail(b, 1) && IsTail(b, 2) && IsTail(b, 3)
      && (b[0] == 0xF0 ==> 0x90 <= b[1]) && (b[0] == 0xF4 ==> b[1] <= 0x8F) then 4
    else 0
  }

  predicate IsUtf8(b: Bytes)
    decreases |b|
  {
    b == [] || (CharLen(b) > 0 && IsUtf8(b[CharLen(b)..]))
  }
}
