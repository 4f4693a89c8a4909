/** The hand-rolled base64 and PEM decoders. Text is characters rather than
    UTF-8 bytes, which is the same to them: every byte of a character beyond
    ASCII is outside the alphabet. */
module Base64 {
  import opened Bytes
  import opened Wrappers

  function Range(first: char, n: nat): (s: string)
    requires first as nat + n <= 256
    ensures |s| == n && forall i | 0 <= i < n :: s[i] == first + i as char
  {
    seq(n, i requires 0 <= i < n => first + i as char)
  }

  /** `A` to `Z`, `a` to `z`, `0` to `9`, `+`, `/`. */
  function Alphabet(): (s: string)
    ensures |s| == 64
  {
    Range('A', 26) + Range('a', 26) + Range('0', 10) + "+/"
  }

  const INVALID: nat := 255

  /** A symbol's value, from the alphabet's order. */
  function SymbolValue(c: char): (v: nat)
    ensures v < 64 || v == INVALID
  {
    if 'A' <= c <= 'Z' then (c - 'A') as nat
    else if 'a' <= c <= 'z' then (c - 'a') as nat + 26
    else if '0' <= c <= '9' then (c - '0') as nat + 52
    else if c == '+' then 62
    else if c == '/' then 63
    else INVALID
  }

  predicate IsSymbol(c: char) { SymbolValue(c) < 64 }

  lemma AlphabetInOrder()
    ensures forall i | 0 <= i < 64 :: SymbolValue(Alphabet()[i]) == i
    ensures forall c | IsSymbol(c) :: Alphabet()[SymbolValue(c)] == c
  {}

  // ---- decoding -----------------------------------------------------------------

  predicate IsAsciiSpace(c: char) {
    c == ' ' || c == '\t' || c == '\n' || c == '\r' || c == '\U{0C}'
  }

  function NoSpace(s: string): string {
    if s == "" then "" else NoSpace(s[..|s| - 1]) + if IsAsciiSpace(s[|s| - 1]) then "" else [s[|s| - 1]]
  }

  /** How many `=` the text ends in. */
  function Pads(s: string): (n: nat)
    ensures n <= |s|
  {
    if s == "" || s[|s| - 1] != '=' then 0 else 1 + Pads(s[..|s| - 1])
  }

  predicate AllSymbols(s: string) {
    forall i | 0 <= i < |s| :: IsSymbol(s[i])
  }

  /** Six bits a symbol, the first highest. */
  function Acc(g: string): nat
    requires AllSymbols(g)
  {
    if g == "" then 0 else 64 * Acc(g[..|g| - 1]) + SymbolValue(g[|g| - 1])
  }

  /** The top three bytes of a 24-bit number, in order. */
  function Be24(acc: nat): (b: Bytes)
    ensures |b| == 3
  {
    [acc / 65_536 % 256, acc / 256 % 256, acc % 256]
  }

  /** Six bits up for each symbol short of four. */
  function Shifted(acc: nat, symbols: nat): nat {
    if symbols == 2 then 4096 * acc else if symbols == 3 then 64 * acc else acc
  }

  /** The bytes of a group of two to four symbols, bits short of a byte
      dropped. */
  function GroupBytes(g: string): Bytes
    requires AllSymbols(g) && 2 <= |g| <= 4
  {
    Be24(Shifted(Acc(g), |g|))[..|g| - 1]
  }

  function Front(s: string): string { if |s| < 4 then s else s[..4] }

  function Rest(s: string): string { if |s| < 4 then "" else s[4..] }

  function DecodeGroups(s: string): Option<Bytes>
    decreases |s|
  {
    if s == "" then Some([])
    else if |Front(s)| == 1 || !AllSymbols(Front(s)) then None
    else match DecodeGroups(Rest(s))
      case None => None
      case Some(rest) => Some(GroupBytes(Front(s)) + rest)
  }

  /** `base64_decode`. */
  function Decode(s: string): Option<Bytes> {
    var raw := NoSpace(s);
    if Pads(raw) > 2 then None else DecodeGroups(raw[..|raw| - Pads(raw)])
  }

  ghost predicate IsReverse(rev: array<nat>)
    reads rev
  {
    rev.Length == 256 && forall c: char | c < 256 as char :: rev[c as nat] == SymbolValue(c)
  }

  /** The reverse table: each symbol's value at its character, 255 elsewhere. */
  method ReverseTable() returns (rev: array<nat>)
    ensures fresh(rev) && IsReverse(rev)
  {
    AlphabetInOrder();
    rev := new nat[256](_ => INVALID);
    var alphabet := Alphabet();
    for i := 0 to |alphabet|
      invariant forall c: char | c < 256 as char ::
                  rev[c as nat] == if SymbolValue(c) < i then SymbolValue(c) else INVALID
    {
      rev[alphabet[i] as nat] := i;
    }
  }

  method DecodeGroup(rev: array<nat>, chunk: string) returns (r: Option<Bytes>)
    requires IsReverse(rev) && 1 <= |chunk| <= 4
    ensures r == if |chunk| == 1 || !AllSymbols(chunk) then None else Some(GroupBytes(chunk))
  {
    if |chunk| == 1 {
      return None;
    }
    var acc := 0;
    for i := 0 to |chunk|
      invariant AllSymbols(chunk[..i]) && acc == Acc(chunk[..i])
    {
      var v := if chunk[i] < 256 as char then rev[chunk[i] as nat] else INVALID;
      if v == INVALID {
        return None;
      }
      assert chunk[..i + 1][..i] == chunk[..i];
      acc := 64 * acc + v;
    }
    assert chunk[..|chunk|] == chunk;
    acc := Shifted(acc, |chunk|);
    r := Some(Be24(acc)[..|chunk| - 1]);
  }

  function After(out: Bytes, rest: Option<Bytes>): Option<Bytes> {
    match rest
    case None => None
    case Some(b) => Some(out + b)
  }

  lemma AfterStep(out: Bytes, s: string)
    requires s != "" && |Front(s)| > 1 && AllSymbols(Front(s))
    ensures After(out, DecodeGroups(s)) == After(out + GroupBytes(Front(s)), DecodeGroups(Rest(s)))
  {
    if DecodeGroups(Rest(s)).Some? {
      var rest := DecodeGroups(Rest(s)).value;
      assert out + (GroupBytes(Front(s)) + rest) == out + GroupBytes(Front(s)) + rest;
    }
  }

  lemma AfterEnds(b: Bytes, r: Option<Bytes>)
    ensures After([], r) == r && After(b, Some([])) == Some(b)
  {
    assert r.Some? ==> [] + r.value == r.value;
    assert b + [] == b;
  }

  method DecodeChunks(stripped: string) returns (r: Option<Bytes>)
    ensures r == DecodeGroups(stripped)
  {
    var rev := ReverseTable();
    var todo, out: Bytes := stripped, [];
    AfterEnds([], DecodeGroups(stripped));
    while todo != ""
      invariant IsReverse(rev) && DecodeGroups(stripped) == After(out, DecodeGroups(todo))
      decreases |todo|
    {
      var one := DecodeGroup(rev, Front(todo));
      if one.None? {
        return None;
      }
      AfterStep(out, todo);
      out := out + one.value;
      todo := Rest(todo);
    }
    AfterEnds(out, None);
    r := Some(out);
  }

  /** The loop over groups of four computes exactly `Decode`. */
  method Base64Decode(s: string) returns (r: Option<Bytes>)
    ensures r == Decode(s)
  {
    var raw := NoSpace(s);
    var pad := Pads(raw);
    if pad > 2 {
      return None;
    }
    r := DecodeChunks(raw[..|raw| - pad]);
  }

  lemma SplitAt(s: string, i: nat)
    requires i < |s|
    ensures s[i] == if i < |Front(s)| then Front(s)[i] else Rest(s)[i - |Front(s)|]
  {}

  lemma SplitLength(s: string)
    ensures |s| == |Front(s)| + |Rest(s)| && (|s| % 4 != 1 <==> |Front(s)| != 1 && |Rest(s)| % 4 != 1)
  {}

  lemma SymbolsSplit(s: string)
    ensures AllSymbols(s) <==> AllSymbols(Front(s)) && AllSymbols(Rest(s))
  {
    if AllSymbols(s) {
      forall i | 0 <= i < |Front(s)| ensures IsSymbol(Front(s)[i]) { SplitAt(s, i); }
      forall i | 0 <= i < |Rest(s)| ensures IsSymbol(Rest(s)[i]) { SplitAt(s, i + |Front(s)|); }
    } else if AllSymbols(Front(s)) && AllSymbols(Rest(s)) {
      forall i | 0 <= i < |s| ensures IsSymbol(s[i]) { SplitAt(s, i); }
    }
  }

  lemma {:induction false} GroupsAcceptIff(s: string)
    ensures DecodeGroups(s).Some? <==> AllSymbols(s) && |s| % 4 != 1
    decreases |s|
  {
    if s != "" {
      GroupsAcceptIff(Rest(s));
      SymbolsSplit(s);
      SplitLength(s);
    }
  }

  /** What is accepted: whitespace aside and up to two closing `=` taken off,
      only symbols, and never one symbol too many. */
  lemma AcceptsIff(s: string)
    ensures var raw := NoSpace(s);
            var stripped := raw[..|raw| - Pads(raw)];
            Decode(s).Some? <==> Pads(raw) <= 2 && AllSymbols(stripped) && |stripped| % 4 != 1
  {
    var raw := NoSpace(s);
    GroupsAcceptIff(raw[..|raw| - Pads(raw)]);
  }

  // ---- encoding (section 4 of RFC 4648) -----------------------------------------

  function FirstThree(b: Bytes): Bytes { if |b| < 3 then b else b[..3] }

  function AfterThree(b: Bytes): Bytes { if |b| < 3 then [] else b[3..] }

  function Byte(b: Bytes, i: nat): (n: nat)
    ensures n < 256
  {
    if i < |b| then b[i] else 0
  }

  /** Three bytes as one number, missing ones zero. */
  function Value24(b: Bytes): nat
    requires 1 <= |b| <= 3
  {
    65_536 * Byte(b, 0) + 256 * Byte(b, 1) + Byte(b, 2)
  }

  function EncodeGroup(b: Bytes): (g: string)
    requires 1 <= |b| <= 3
    ensures |g| == |b| + 1
  {
    var v := Value24(b);
    [Alphabet()[v / 262_144], Alphabet()[v / 4096 % 64], Alphabet()[v / 64 % 64], Alphabet()[v % 64]][..|b| + 1]
  }

  function Symbols(b: Bytes): string
    decreases |b|
  {
    if b == [] then "" else EncodeGroup(FirstThree(b)) + Symbols(AfterThree(b))
  }

  function Padding(n: nat): string {
    if n % 3 == 1 then "==" else if n % 3 == 2 then "=" else ""
  }

  function Encode(b: Bytes): string {
    Symbols(b) + Padding(|b|)
  }

  lemma AccOfGroup(g: string)
    requires AllSymbols(g) && 2 <= |g| <= 4
    ensures |g| == 2 ==> Acc(g) == 64 * SymbolValue(g[0]) + SymbolValue(g[1])
    ensures |g| == 3 ==> Acc(g) == 4096 * SymbolValue(g[0]) + 64 * SymbolValue(g[1]) + SymbolValue(g[2])
    ensures |g| == 4 ==>
              Acc(g) == 262_144 * SymbolValue(g[0]) + 4096 * SymbolValue(g[1]) + 64 * SymbolValue(g[2]) + SymbolValue(g[3])
  {
    var g1, g2, g3 := g[..1], g[..2], g[..|g| - 1];
    assert g1[..0] == "" && g2[..1] == g1;
    assert Acc(g1) == SymbolValue(g[0]);
    assert Acc(g2) == 64 * SymbolValue(g[0]) + SymbolValue(g[1]);
    if |g| == 2 {
      assert g2 == g;
    } else if |g| == 3 {
      assert g3 == g2;
    } else {
      assert g3[..2] == g2;
      assert Acc(g3) == 64 * Acc(g2) + SymbolValue(g[2]);
    }
  }

  lemma SixBits(v: nat)
    requires v < 16_777_216
    ensures v / 262_144 < 64
    ensures v == 262_144 * (v / 262_144) + 4096 * (v / 4096 % 64) + 64 * (v / 64 % 64) + v % 64
  {
    assert v / 64 == 64 * (v / 4096) + v / 64 % 64;
    assert v / 4096 == 64 * (v / 262_144) + v / 4096 % 64;
  }

  lemma ThreeBytes(x: nat, y: nat, z: nat)
    requires x < 256 && y < 256 && z < 256
    ensures var v := 65_536 * x + 256 * y + z;
            v < 16_777_216 && v / 65_536 % 256 == x && v / 256 % 256 == y && v % 256 == z
  {
    var v := 65_536 * x + 256 * y + z;
    assert v / 256 == 256 * x + y && v / 65_536 == x;
  }

  lemma EightBits(b: Bytes)
    requires 1 <= |b| <= 3
    ensures Value24(b) < 16_777_216 && Be24(Value24(b))[..|b|] == b
    ensures |b| == 1 ==> Value24(b) % 4096 == 0
    ensures |b| == 2 ==> Value24(b) % 64 == 0
  {
    ThreeBytes(Byte(b, 0), Byte(b, 1), Byte(b, 2));
    assert Be24(Value24(b)) == [Byte(b, 0), Byte(b, 1), Byte(b, 2)];
    LowZeros(Byte(b, 0), Byte(b, 1));
  }

  lemma LowZeros(x: nat, y: nat)
    ensures 65_536 * x % 4096 == 0 && (65_536 * x + 256 * y) % 64 == 0
  {
    assert 65_536 * x == 4096 * (16 * x);
    assert 65_536 * x + 256 * y == 64 * (1024 * x + 4 * y);
  }

  lemma SymbolAt(i: nat)
    requires i < 64
    ensures IsSymbol(Alphabet()[i]) && SymbolValue(Alphabet()[i]) == i
  {
    AlphabetInOrder();
  }

  lemma GroupValues(b: Bytes)
    requires 1 <= |b| <= 3
    ensures var g, v := EncodeGroup(b), Value24(b);
            && AllSymbols(g)
            && SymbolValue(g[0]) == v / 262_144 && SymbolValue(g[1]) == v / 4096 % 64
            && (|b| > 1 ==> SymbolValue(g[2]) == v / 64 % 64)
            && (|b| > 2 ==> SymbolValue(g[3]) == v % 64)
  {
    var v := Value24(b);
    EightBits(b);
    SixBits(v);
    SymbolAt(v / 262_144);
    SymbolAt(v / 4096 % 64);
    SymbolAt(v / 64 % 64);
    SymbolAt(v % 64);
  }

  lemma GroupAcc(b: Bytes)
    requires 1 <= |b| <= 3
    ensures var g := EncodeGroup(b); AllSymbols(g) && Shifted(Acc(g), |g|) == Value24(b)
  {
    var g := EncodeGroup(b);
    GroupValues(b);
    EightBits(b);
    SixBits(Value24(b));
    AccOfGroup(g);
    LowBits(Value24(b));
  }

  lemma LowBits(v: nat)
    ensures v % 4096 == 0 ==> v / 64 % 64 == 0 && v % 64 == 0
  {
    var q := v / 4096;
    if v == 4096 * q {
      assert v == 64 * (64 * q);
      assert v / 64 == 64 * q;
    }
  }

  lemma GroupRoundTrip(b: Bytes)
    requires 1 <= |b| <= 3
    ensures AllSymbols(EncodeGroup(b)) && GroupBytes(EncodeGroup(b)) == b
  {
    GroupAcc(b);
    EightBits(b);
  }

  lemma {:induction false} SymbolsRoundTrip(b: Bytes)
    ensures AllSymbols(Symbols(b)) && DecodeGroups(Symbols(b)) == Some(b)
    decreases |b|
  {
    if b != [] {
      var g, rest := EncodeGroup(FirstThree(b)), Symbols(AfterThree(b));
      GroupRoundTrip(FirstThree(b));
      SymbolsRoundTrip(AfterThree(b));
      assert Symbols(b) == g + rest;
      assert |b| < 3 ==> rest == "";
      assert Front(g + rest) == g && Rest(g + rest) == rest;
      assert b == FirstThree(b) + AfterThree(b);
    }
  }

  lemma PadsSnoc(s: string)
    ensures Pads(s + "=") == 1 + Pads(s)
  {
    assert (s + "=")[..|s|] == s;
  }

  lemma PadsAre(s: string, padding: string)
    requires s == "" || s[|s| - 1] != '='
    requires padding == "" || padding == "=" || padding == "=="
    ensures Pads(s + padding) == |padding|
  {
    PadsSnoc(s);
    PadsSnoc(s + "=");
    if padding == "" {
      assert s + padding == s;
    } else if padding == "==" {
      assert s + padding == s + "=" + "=";
    }
  }

  lemma SymbolIsNoPad(s: string)
    requires AllSymbols(s)
    ensures s == "" || s[|s| - 1] != '='
  {
    assert !IsSymbol('=');
  }

  lemma PadsOfEncoding(symbols: string, padding: string)
    requires AllSymbols(symbols) && (padding == "" || padding == "=" || padding == "==")
    ensures Pads(symbols + padding) == |padding|
  {
    SymbolIsNoPad(symbols);
    PadsAre(symbols, padding);
  }

  lemma DecodeUnpadded(s: string, symbols: string, padding: string)
    requires AllSymbols(symbols) && (padding == "" || padding == "=" || padding == "==")
    requires NoSpace(s) == symbols + padding
    ensures Decode(s) == DecodeGroups(symbols)
  {
    PadsOfEncoding(symbols, padding);
    assert (symbols + padding)[..|symbols|] == symbols;
  }

  /** The encoding of any bytes, with whitespace put in anywhere, decodes to
      those bytes. */
  lemma DecodeEncoded(b: Bytes, s: string)
    requires NoSpace(s) == Encode(b)
    ensures Decode(s) == Some(b)
  {
    SymbolsRoundTrip(b);
    DecodeUnpadded(s, Symbols(b), Padding(|b|));
  }

  // ---- PEM (section 2 of RFC 7468) -------------------------------------------------

  /** `char::is_whitespace`. */
  predicate IsSpace(c: char) {
    || '\t' <= c <= '\r' || c == ' ' || c == '\U{85}' || c == '\U{A0}' || c == '\U{1680}'
    || '\U{2000}' <= c <= '\U{200A}' || c == '\U{2028}' || c == '\U{2029}' || c == '\U{202F}' || c == '\U{205F}'
    || c == '\U{3000}'
  }

  function TrimStart(s: string): string {
    if s != "" && IsSpace(s[0]) then TrimStart(s[1..]) else s
  }

  function TrimEnd(s: string): string {
    if s != "" && IsSpace(s[|s| - 1]) then TrimEnd(s[..|s| - 1]) else s
  }

  function Trim(s: string): string { TrimEnd(TrimStart(s)) }

  /** Up to the first line feed. */
  function FirstLine(s: string): (line: string)
    ensures |line| <= |s| && s[..|line|] == line && forall i | 0 <= i < |line| :: line[i] != '\n'
    ensures |line| < |s| ==> s[|line|] == '\n'
  {
    if s == "" || s[0] == '\n' then "" else [s[0]] + FirstLine(s[1..])
  }

  function NoReturn(line: string): string {
    if line != "" && line[|line| - 1] == '\r' then line[..|line| - 1] else line
  }

  /** `str::lines`: each line feed, with a carriage return before it, ends a
      line; a last line need not be ended. */
  function Lines(s: string): seq<string>
    decreases |s|
  {
    if s == "" then []
    else
      var line := FirstLine(s);
      if |line| == |s| then [line] else [NoReturn(line)] + Lines(s[|line| + 1..])
  }

  predicate IsMarker(line: string) { "-----" <= line }

  function Unmarked(line: string): string { if IsMarker(line) then "" else line }

  /** The lines that are not markers, joined. */
  function BodyOf(lines: seq<string>): string {
    if lines == [] then "" else Unmarked(lines[0]) + BodyOf(lines[1..])
  }

  /** `pem_to_der`. */
  function PemToDer(pem: string): Option<Bytes> {
    Decode(Trim(BodyOf(Lines(pem))))
  }

  datatype Eol = Lf | CrLf
  {
    function Text(): string { if Lf? then "\n" else "\r\n" }
  }

  function Joined(lines: seq<string>): string {
    if lines == [] then "" else lines[0] + Joined(lines[1..])
  }

  function TextOf(lines: seq<string>, eol: Eol): string {
    if lines == [] then "" else lines[0] + eol.Text() + TextOf(lines[1..], eol)
  }

  /** A line as `Lines` gives it: it holds no line feed, and no carriage return
      that would go with its end. */
  predicate Plain(s: string) {
    (forall i | 0 <= i < |s| :: s[i] != '\n') && (s != "" ==> s[|s| - 1] != '\r')
  }

  /** A PEM block with any label and any wrapping of its body. */
  function Block(kind: string, body: seq<string>): seq<string> {
    ["-----BEGIN " + kind + "-----"] + body + ["-----END " + kind + "-----"]
  }

  lemma FirstLineOf(line: string, eol: Eol, rest: string)
    requires Plain(line)
    ensures var s := line + eol.Text() + rest;
            Lines(s) == [line] + Lines(rest)
  {
    var s := line + eol.Text() + rest;
    var first := FirstLine(s);
    var n := |line| + |eol.Text()| - 1;
    assert s[n] == '\n';
    assert forall i | 0 <= i < n :: s[i] != '\n';
    assert |first| == n;
    assert s[n + 1..] == rest;
    if eol.Lf? {
      assert first == s[..n] == line;
    } else {
      assert first == s[..n] == line + "\r";
    }
    assert NoReturn(first) == line;
  }

  lemma {:induction false} LinesOfText(lines: seq<string>, eol: Eol)
    requires forall i | 0 <= i < |lines| :: Plain(lines[i])
    ensures Lines(TextOf(lines, eol)) == lines
  {
    if lines != [] {
      LinesOfText(lines[1..], eol);
      FirstLineOf(lines[0], eol, TextOf(lines[1..], eol));
    }
  }

  predicate NoMarkers(lines: seq<string>) {
    forall i | 0 <= i < |lines| :: !IsMarker(lines[i])
  }

  lemma BodyOfCons(line: string, lines: seq<string>)
    ensures BodyOf([line] + lines) == Unmarked(line) + BodyOf(lines)
  {
    assert ([line] + lines)[1..] == lines;
  }

  lemma Associates(a: string, b: string, c: string)
    ensures a + b + c == a + (b + c)
  {}

  lemma {:induction false} BodyOfAppend(a: seq<string>, b: seq<string>)
    ensures BodyOf(a + b) == BodyOf(a) + BodyOf(b)
  {
    if a == [] {
      assert a + b == b;
    } else {
      BodyOfAppend(a[1..], b);
      BodyOfCons(a[0], a[1..] + b);
      Associates(Unmarked(a[0]), BodyOf(a[1..]), BodyOf(b));
      assert a + b == [a[0]] + (a[1..] + b);
    }
  }

  lemma {:induction false} BodyOfJoins(a: seq<string>)
    requires NoMarkers(a)
    ensures BodyOf(a) == Joined(a)
  {
    if a != [] {
      BodyOfJoins(a[1..]);
    }
  }

  lemma BodyOfBlock(kind: string, body: seq<string>)
    requires NoMarkers(body)
    ensures BodyOf(Block(kind, body)) == Joined(body)
  {
    var first, last := "-----BEGIN " + kind + "-----", "-----END " + kind + "-----";
    assert IsMarker(first) && IsMarker(last);
    BodyOfJoins(body);
    BodyOfAppend([first], body);
    BodyOfAppend([first] + body, [last]);
    assert BodyOf([first]) == "" && BodyOf([last]) == "";
  }

  lemma BodyOfAround(pre: seq<string>, kind: string, body: seq<string>, post: seq<string>)
    requires NoMarkers(body)
    ensures BodyOf(pre + Block(kind, body) + post) == BodyOf(pre) + Joined(body) + BodyOf(post)
  {
    BodyOfAppend(pre, Block(kind, body));
    BodyOfAppend(pre + Block(kind, body), post);
    BodyOfBlock(kind, body);
  }

  /** Characters of encodings: symbols and `=`. */
  predicate Printed(s: string) {
    forall i | 0 <= i < |s| :: IsSymbol(s[i]) || s[i] == '='
  }

  lemma PrintedIsNoMarker(s: string)
    requires Printed(s)
    ensures !IsMarker(s)
  {
    assert "-----"[0] == '-';
    if s != "" {
      assert IsSymbol(s[0]) || s[0] == '=';
    }
  }

  lemma {:induction false} PartsArePrinted(parts: seq<string>)
    requires Printed(Joined(parts))
    ensures NoMarkers(parts) && forall i | 0 <= i < |parts| :: Plain(parts[i])
  {
    if parts != [] {
      var all := Joined(parts);
      assert all == parts[0] + Joined(parts[1..]);
      assert forall i | 0 <= i < |Joined(parts[1..])| :: Joined(parts[1..])[i] == all[|parts[0]| + i];
      PartsArePrinted(parts[1..]);
      assert forall i | 0 <= i < |parts[0]| :: parts[0][i] == all[i];
      PrintedIsNoMarker(parts[0]);
    }
  }

  lemma EncodingIsPrinted(b: Bytes)
    ensures Printed(Encode(b))
  {
    SymbolsRoundTrip(b);
  }

  lemma PrintedIsNoSpace(c: char)
    requires IsSymbol(c) || c == '='
    ensures !IsAsciiSpace(c) && !IsSpace(c)
  {}

  lemma {:induction false} PrintedHasNoSpace(s: string)
    requires Printed(s)
    ensures NoSpace(s) == s && Trim(s) == s
  {
    if s != "" {
      PrintedHasNoSpace(s[..|s| - 1]);
      PrintedIsNoSpace(s[0]);
      PrintedIsNoSpace(s[|s| - 1]);
    }
  }

  lemma BlockLinesArePlain(kind: string, body: seq<string>)
    requires Plain(kind) && forall i | 0 <= i < |body| :: Plain(body[i])
    ensures forall i | 0 <= i < |Block(kind, body)| :: Plain(Block(kind, body)[i])
  {
    assert Plain("-----BEGIN ") && Plain("-----END ") && Plain("-----");
  }

  lemma BlockLines(b: Bytes, kind: string, body: seq<string>, eol: Eol)
    requires Plain(kind) && Joined(body) == Encode(b)
    ensures NoMarkers(body) && Lines(TextOf(Block(kind, body), eol)) == Block(kind, body)
  {
    EncodingIsPrinted(b);
    PartsArePrinted(body);
    BlockLinesArePlain(kind, body);
    LinesOfText(Block(kind, body), eol);
  }

  /** The payload comes back from its PEM form, however the body is wrapped and
      whichever line ends are used. */
  lemma PemRoundTrip(b: Bytes, kind: string, body: seq<string>, eol: Eol)
    requires Plain(kind) && Joined(body) == Encode(b)
    ensures PemToDer(TextOf(Block(kind, body), eol)) == Some(b)
  {
    BlockLines(b, kind, body, eol);
    BodyOfBlock(kind, body);
    EncodedDecodes(b);
    EncodingIsPrinted(b);
    PrintedHasNoSpace(Encode(b));
  }

  // ---- text around a block -------------------------------------------------------------

  predicate AllSpace(s: string) {
    forall i | 0 <= i < |s| :: IsSpace(s[i])
  }

  /** At most `most` characters, all of them `=`. */
  predicate OnlyPads(s: string, most: nat) {
    |s| <= most && forall i | 0 <= i < |s| :: s[i] == '='
  }

  /** What the lines before and after a block of payload `b` may hold for the
      decoder not to notice: before it whitespace, and after it no more `=` than
      make up two with the block's own. */
  predicate Harmless(before: string, after: string, b: Bytes) {
    if b == [] then OnlyPads(NoSpace(Trim(before + after)), 2)
    else AllSpace(before) && OnlyPads(NoSpace(TrimEnd(after)), 2 - |Padding(|b|)|)
  }

  lemma AsciiSpaceIsSpace(c: char)
    ensures IsAsciiSpace(c) ==> IsSpace(c)
  {}

  lemma {:induction false} NoSpaceAppend(a: string, b: string)
    ensures NoSpace(a + b) == NoSpace(a) + NoSpace(b)
    decreases |b|
  {
    if b == "" {
      assert a + b == a;
    } else {
      NoSpaceAppend(a, b[..|b| - 1]);
      assert (a + b)[..|a + b| - 1] == a + b[..|b| - 1];
    }
  }

  lemma {:induction false} TrimStartKeeps(x: string, e: string)
    requires e != "" && !IsSpace(e[0])
    ensures TrimStart(x + e) == TrimStart(x) + e
  {
    if x == "" {
      assert x + e == e;
    } else if IsSpace(x[0]) {
      TrimStartKeeps(x[1..], e);
      assert (x + e)[1..] == x[1..] + e;
    }
  }

  lemma {:induction false} TrimEndKeeps(e: string, y: string)
    requires e != "" && !IsSpace(e[|e| - 1])
    ensures TrimEnd(e + y) == e + TrimEnd(y)
  {
    if y == "" {
      assert e + y == e;
    } else if IsSpace(y[|y| - 1]) {
      TrimEndKeeps(e, y[..|y| - 1]);
      assert (e + y)[..|e + y| - 1] == e + y[..|y| - 1];
    }
  }

  lemma TrimAround(x: string, e: string, y: string)
    requires Printed(e) && e != ""
    ensures Trim(x + e + y) == TrimStart(x) + e + TrimEnd(y)
  {
    PrintedIsNoSpace(e[0]);
    PrintedIsNoSpace(e[|e| - 1]);
    TrimStartKeeps(x, e + y);
    assert x + e + y == x + (e + y) && TrimStart(x) + (e + y) == TrimStart(x) + e + y;
    TrimEndKeeps(TrimStart(x) + e, y);
  }

  lemma {:induction false} TrimStartSpace(x: string)
    ensures TrimStart(x) == "" <==> AllSpace(x)
    ensures TrimStart(x) != "" ==> !IsSpace(TrimStart(x)[0])
  {
    if x != "" && IsSpace(x[0]) {
      TrimStartSpace(x[1..]);
      assert x == [x[0]] + x[1..];
    }
  }

  lemma FirstStays(s: string)
    requires s != "" && !IsAsciiSpace(s[0])
    ensures NoSpace(s) != ""
  {
    assert s == s[..1] + s[1..];
    NoSpaceAppend(s[..1], s[1..]);
    assert s[..1][..0] == "";
  }

  lemma NothingBefore(x: string)
    ensures NoSpace(TrimStart(x)) == "" <==> AllSpace(x)
  {
    TrimStartSpace(x);
    if TrimStart(x) != "" {
      AsciiSpaceIsSpace(TrimStart(x)[0]);
      FirstStays(TrimStart(x));
    }
  }

  /** What the decoder is left with. */
  lemma RawAround(x: string, e: string, y: string)
    requires Printed(e) && e != ""
    ensures NoSpace(Trim(x + e + y)) == NoSpace(TrimStart(x)) + e + NoSpace(TrimEnd(y))
  {
    TrimAround(x, e, y);
    NoSpaceAppend(TrimStart(x) + e, TrimEnd(y));
    NoSpaceAppend(TrimStart(x), e);
    PrintedHasNoSpace(e);
  }

  /** How many bytes that many symbols give. */
  function DecodedLength(n: nat): nat {
    n / 4 * 3 + if n % 4 == 0 then 0 else n % 4 - 1
  }

  lemma DecodedLengthGrows(m: nat, n: nat)
    requires m % 4 != 1 && n % 4 != 1 && DecodedLength(m) == DecodedLength(n)
    ensures m == n
  {}

  lemma {:induction false} DecodedLengthIs(s: string)
    requires DecodeGroups(s).Some?
    ensures |DecodeGroups(s).value| == DecodedLength(|s|) && |s| % 4 != 1
    decreases |s|
  {
    if s != "" {
      DecodedLengthIs(Rest(s));
    }
  }

  /** Symbols that decode to `b` are as many as its encoding has. */
  lemma AsManySymbols(t: string, b: Bytes)
    requires DecodeGroups(t) == Some(b)
    ensures |t| == |Symbols(b)|
  {
    SymbolsRoundTrip(b);
    DecodedLengthIs(t);
    DecodedLengthIs(Symbols(b));
    DecodedLengthGrows(|t|, |Symbols(b)|);
  }

  lemma {:induction false} PadsArePads(s: string)
    ensures forall i | |s| - Pads(s) <= i < |s| :: s[i] == '='
  {
    if s != "" && s[|s| - 1] == '=' {
      PadsArePads(s[..|s| - 1]);
    }
  }

  /** Symbols with more around them decode to what they decode to alone only if
      the more is `=` after them. */
  lemma OnlyPadsAround(x: string, symbols: string, more: string, n: nat)
    requires symbols != "" && AllSymbols(symbols) && n <= 2
    requires |x + symbols + more| == |symbols| + n
    requires forall i | |symbols| <= i < |symbols| + n :: (x + symbols + more)[i] == '='
    ensures x == "" && OnlyPads(more, 2)
  {
    var raw := x + symbols + more;
    assert !IsSymbol('=');
    var last := |x| + |symbols| - 1;
    assert raw[last] == symbols[|symbols| - 1];
    assert forall i | 0 <= i < |more| :: raw[|x| + |symbols| + i] == more[i];
  }

  lemma NoisePadded(x: string, b: Bytes, more: string, s: string)
    requires b != [] && NoSpace(s) == x + Symbols(b) + more && Decode(s) == Some(b)
    ensures x == "" && OnlyPads(more, 2)
  {
    var raw := NoSpace(s);
    SymbolsRoundTrip(b);
    PadsArePads(raw);
    AsManySymbols(raw[..|raw| - Pads(raw)], b);
    OnlyPadsAround(x, Symbols(b), more, Pads(raw));
  }

  lemma PadsOnly(s: string)
    requires OnlyPads(s, 2)
    ensures s == "" || s == "=" || s == "=="
  {}

  lemma PaddedDecodes(b: Bytes, more: string, s: string)
    requires NoSpace(s) == Symbols(b) + more && OnlyPads(more, 2)
    ensures Decode(s) == Some(b)
  {
    SymbolsRoundTrip(b);
    PadsOnly(more);
    DecodeUnpadded(s, Symbols(b), more);
  }

  lemma MorePads(pads: string, more: string)
    requires OnlyPads(pads, 2)
    ensures OnlyPads(pads + more, 2) <==> OnlyPads(more, 2 - |pads|)
  {
    assert forall i | 0 <= i < |more| :: (pads + more)[|pads| + i] == more[i];
  }

  lemma RawIff(s: string, front: string, b: Bytes, more: string)
    requires b != [] && NoSpace(s) == front + Encode(b) + more
    ensures Decode(s) == Some(b) <==> front == "" && OnlyPads(more, 2 - |Padding(|b|)|)
  {
    var symbols, pads := Symbols(b), Padding(|b|);
    MorePads(pads, more);
    RegroupEnd(front, symbols, pads, more);
    if Decode(s) == Some(b) {
      NoisePadded(front, b, pads + more, s);
    } else if front == "" && OnlyPads(more, 2 - |pads|) {
      PaddedDecodes(b, pads + more, s);
    }
  }

  lemma RegroupEnd(a: string, b: string, c: string, d: string)
    ensures a + (b + c) + d == a + b + (c + d)
    ensures a == "" ==> a + b + (c + d) == b + (c + d)
  {}

  lemma EncodeIsEmpty(b: Bytes)
    ensures Printed(Encode(b)) && (Encode(b) == "" <==> b == [])
  {
    EncodingIsPrinted(b);
  }

  lemma AroundIff(x: string, b: Bytes, y: string)
    requires b != []
    ensures Decode(Trim(x + Encode(b) + y)) == Some(b)
            <==> AllSpace(x) && OnlyPads(NoSpace(TrimEnd(y)), 2 - |Padding(|b|)|)
  {
    EncodeIsEmpty(b);
    RawAround(x, Encode(b), y);
    NothingBefore(x);
    RawIff(Trim(x + Encode(b) + y), NoSpace(TrimStart(x)), b, NoSpace(TrimEnd(y)));
  }

  lemma EmptyIff(s: string)
    ensures Decode(s) == Some([]) <==> OnlyPads(NoSpace(s), 2)
  {
    var raw := NoSpace(s);
    PadsArePads(raw);
    if Decode(s) == Some([]) {
      AsManySymbols(raw[..|raw| - Pads(raw)], []);
    } else if OnlyPads(raw, 2) {
      assert raw == Symbols([]) + raw;
      PaddedDecodes([], raw, s);
    }
  }

  lemma HarmlessIff(x: string, b: Bytes, y: string, body: string)
    requires body == x + Encode(b) + y
    ensures Decode(Trim(body)) == Some(b) <==> Harmless(x, y, b)
  {
    if b == [] {
      assert body == x + y;
      EmptyIff(Trim(x + y));
    } else {
      AroundIff(x, b, y);
    }
  }

  /** The payload of a block in any text: it comes out exactly when the lines
      outside the block are harmless, since the decoder joins all lines that
      are not markers, wherever they are. */
  lemma FirstBlockIff(pem: string, pre: seq<string>, kind: string, body: seq<string>, post: seq<string>, b: Bytes)
    requires Lines(pem) == pre + Block(kind, body) + post && Joined(body) == Encode(b)
    ensures PemToDer(pem) == Some(b) <==> Harmless(BodyOf(pre), BodyOf(post), b)
  {
    EncodingHasNoMarkers(b, body);
    BodyOfAround(pre, kind, body, post);
    HarmlessIff(BodyOf(pre), b, BodyOf(post), BodyOf(Lines(pem)));
  }

  lemma EncodingHasNoMarkers(b: Bytes, body: seq<string>)
    requires Joined(body) == Encode(b)
    ensures NoMarkers(body) && forall i | 0 <= i < |body| :: Plain(body[i])
  {
    EncodingIsPrinted(b);
    PartsArePrinted(body);
  }

  /** One block after a line of explanation, which section 2 of RFC 7468
      allows: its payload does not come out. */
  lemma ExplanationIsJoined(line: string, kind: string, body: seq<string>, b: Bytes, eol: Eol)
    requires Plain(line) && !IsMarker(line) && !AllSpace(line) && Plain(kind)
    requires Joined(body) == Encode(b) && b != []
    ensures PemToDer(TextOf([line] + Block(kind, body), eol)) != Some(b)
  {
    EncodingIsPrinted(b);
    PartsArePrinted(body);
    BlockLinesArePlain(kind, body);
    var lines := [line] + Block(kind, body);
    LinesOfText(lines, eol);
    assert lines == [line] + Block(kind, body) + [];
    FirstBlockIff(TextOf(lines, eol), [line], kind, body, [], b);
    assert BodyOf([line]) == line;
  }

  // ---- more than one block -----------------------------------------------------------

  lemma ThreesOfAppend(a: Bytes, b: Bytes)
    requires |a| >= 3
    ensures FirstThree(a + b) == FirstThree(a) && AfterThree(a + b) == AfterThree(a) + b
  {}

  lemma SymbolsStep(a: Bytes, b: Bytes, rest: string)
    requires a != [] && b != [] && FirstThree(a) == FirstThree(b)
    requires Symbols(AfterThree(b)) == Symbols(AfterThree(a)) + rest
    ensures Symbols(b) == Symbols(a) + rest
  {}

  lemma {:induction false} SymbolsAppend(a: Bytes, b: Bytes)
    requires |a| % 3 == 0
    ensures Symbols(a + b) == Symbols(a) + Symbols(b)
    decreases |a|
  {
    if a == [] {
      assert a + b == b;
    } else {
      SymbolsAppend(AfterThree(a), b);
      ThreesOfAppend(a, b);
      SymbolsStep(a, a + b, Symbols(b));
    }
  }

  lemma EqualsInside(front: string, symbols: string, i: nat)
    requires i < |front| && front[i] == '='
    ensures DecodeGroups(front + symbols) == None
  {
    assert (front + symbols)[i] == '=' && !IsSymbol('=');
    GroupsAcceptIff(front + symbols);
  }

  /** Padding followed by another encoding is refused. */
  lemma PaddingInside(front: string, i: nat, symbols: string, padding: string)
    requires Printed(front) && i < |front| && front[i] == '='
    requires AllSymbols(symbols) && symbols != "" && (padding == "" || padding == "=" || padding == "==")
    ensures Decode(front + symbols + padding) == None
  {
    var raw := front + symbols + padding;
    PrintedHasNoSpace(raw);
    PadsAfter(front, symbols, padding);
    assert raw[..|raw| - |padding|] == front + symbols;
    EqualsInside(front, symbols, i);
  }

  lemma PadsAfter(front: string, symbols: string, padding: string)
    requires AllSymbols(symbols) && symbols != "" && (padding == "" || padding == "=" || padding == "==")
    ensures Pads(front + symbols + padding) == |padding|
  {
    SymbolIsNoPad(symbols);
    assert (front + symbols)[|front + symbols| - 1] == symbols[|symbols| - 1];
    PadsAre(front + symbols, padding);
  }

  lemma PaddingTogether(m: nat, n: nat)
    requires m % 3 == 0
    ensures Padding(m) == "" && Padding(m + n) == Padding(n)
  {
    assert (m + n) % 3 == n % 3;
  }

  lemma EncodedTogether(a: Bytes, b: Bytes)
    requires |a| % 3 == 0
    ensures Encode(a) + Encode(b) == Encode(a + b)
  {
    SymbolsAppend(a, b);
    PaddingTogether(|a|, |b|);
    NothingBetween(Symbols(a), Symbols(b), Padding(|b|));
  }

  lemma NothingBetween(a: string, b: string, c: string)
    ensures (a + "") + (b + c) == (a + b) + c
  {}

  lemma EncodedDecodes(b: Bytes)
    ensures Decode(Encode(b)) == Some(b)
  {
    EncodingIsPrinted(b);
    PrintedHasNoSpace(Encode(b));
    DecodeEncoded(b, Encode(b));
  }

  lemma PaddingFollows(symbols: string, padding: string)
    requires padding == "=" || padding == "=="
    ensures |symbols + padding| > |symbols| && (symbols + padding)[|symbols|] == '='
  {}

  lemma EncodedApart(a: Bytes, b: Bytes)
    requires |a| % 3 != 0 && b != []
    ensures Decode(Encode(a) + Encode(b)) == None
  {
    EncodingIsPrinted(a);
    SymbolsRoundTrip(b);
    PaddingFollows(Symbols(a), Padding(|a|));
    PaddingInside(Encode(a), |Symbols(a)|, Symbols(b), Padding(|b|));
    Associates(Encode(a), Symbols(b), Padding(|b|));
  }

  lemma TwoBodies(a: Bytes, b: Bytes)
    ensures Decode(Encode(a) + Encode(b))
         == if b == [] then Some(a) else if |a| % 3 == 0 then Some(a + b) else None
  {
    if b == [] {
      assert Encode(a) + Encode(b) == Encode(a);
      EncodedDecodes(a);
    } else if |a| % 3 == 0 {
      EncodedTogether(a, b);
      EncodedDecodes(a + b);
    } else {
      EncodedApart(a, b);
    }
  }

  lemma BodyOfTwo(kind: string, first: seq<string>, second: seq<string>)
    requires NoMarkers(first) && NoMarkers(second)
    ensures BodyOf(Block(kind, first) + Block(kind, second)) == Joined(first) + Joined(second)
  {
    BodyOfAppend(Block(kind, first), Block(kind, second));
    BodyOfBlock(kind, first);
    BodyOfBlock(kind, second);
  }

  lemma PrintedTogether(a: string, b: string)
    requires Printed(a) && Printed(b)
    ensures Trim(a + b) == a + b
  {
    PrintedHasNoSpace(a + b);
  }

  lemma TwoBlockBodies(a: Bytes, b: Bytes, kind: string, first: seq<string>, second: seq<string>)
    requires Joined(first) == Encode(a) && Joined(second) == Encode(b) && NoMarkers(first) && NoMarkers(second)
    ensures Trim(BodyOf(Block(kind, first) + Block(kind, second))) == Encode(a) + Encode(b)
  {
    BodyOfTwo(kind, first, second);
    EncodingIsPrinted(a);
    EncodingIsPrinted(b);
    PrintedTogether(Joined(first), Joined(second));
  }

  /** The decoder does not stop at the first block: of two it gives the first
      payload if the second is empty, and otherwise both payloads or nothing. */
  lemma TwoBlocks(pem: string, kind: string, first: seq<string>, second: seq<string>, a: Bytes, b: Bytes)
    requires Lines(pem) == Block(kind, first) + Block(kind, second)
    requires Joined(first) == Encode(a) && Joined(second) == Encode(b)
    ensures PemToDer(pem) == if b == [] then Some(a) else if |a| % 3 == 0 then Some(a + b) else None
  {
    EncodingIsPrinted(a);
    EncodingIsPrinted(b);
    PartsArePrinted(first);
    PartsArePrinted(second);
    TwoBlockBodies(a, b, kind, first, second);
    TwoBodies(a, b);
  }
}
