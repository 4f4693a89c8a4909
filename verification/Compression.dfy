/** Codec framing and the compression policy engine. Thresholds are reals;
    only `keepThreshold` can be infinite. */
module Compression {
  import opened Bytes
  import opened Wrappers
  import opened Primitives

  datatype Codec = Raw | Zstd

  datatype CompressionError = Empty | UnknownCodec(b: byte) | Decompress

  function ToByte(c: Codec): byte { if c.Raw? then 0 else 1 }

  function Frame(c: Codec, payload: Bytes): Bytes { [ToByte(c)] + payload }

  function Unframe(framed: Bytes): Result<(Codec, Bytes), CompressionError> {
    if framed == [] then Err(Empty)
    else if framed[0] == 0 then Ok((Raw, framed[1..]))
    else if framed[0] == 1 then Ok((Zstd, framed[1..]))
    else Err(UnknownCodec(framed[0]))
  }

  function DecodeChunk(p: Primitives, framed: Bytes): Result<Bytes, CompressionError> {
    match Unframe(framed)
    case Err(e) => Err(e)
    case Ok((Raw, payload)) => Ok(payload)
    case Ok((Zstd, payload)) =>
      match p.unzstd(payload)
      case None => Err(Decompress)
      case Some(data) => Ok(data)
  }

  datatype Phase = InitialFull | Incremental

  datatype Threshold = Finite(t: real) | Infinite

  datatype PolicyConfig = PolicyConfig(
    useProbe: bool,
    escalate: bool,
    zstdLevel: int,
    escalateLevel: int,
    keepThreshold: Threshold,
    probeThreshold: real,
    escalateRatio: real)

  const DEFAULT_POLICY: PolicyConfig := PolicyConfig(false, false, 3, 9, Finite(0.95), 1.02, 2.0)

  /** What is stored for a chunk: raw, the baseline attempt, or the
      escalation retry; and whether the retry was invoked at all. */
  datatype Choice =
    | Unpacked(raw: Bytes, attempted: bool)
    | Baseline(packed: Bytes, attempted: bool)
    | Escalated(packed: Bytes, attempted: bool)
  {
    function Codec(): Codec { if Unpacked? then Raw else Zstd }
    function Payload(): Bytes { if Unpacked? then raw else packed }
  }

  predicate OverThreshold(len: nat, raw: nat, t: Threshold) {
    t.Finite? && len as real > raw as real * t.t
  }

  /** `raw / len >= ratio`; an empty attempt counts as an infinite ratio. */
  predicate RatioAtLeast(raw: nat, len: nat, ratio: real) {
    len == 0 || raw as real / len as real >= ratio
  }

  /** The lz4 probe's verdict that the chunk is not worth compressing. */
  predicate ProbeRejects(p: Primitives, chunk: Bytes, cfg: PolicyConfig) {
    var len := if p.lz4Len(chunk) == 0 then 1 else p.lz4Len(chunk);
    cfg.useProbe && |chunk| as real / len as real < cfg.probeThreshold
  }

  /** `choose_codec`. */
  function Choose(p: Primitives, chunk: Bytes, phase: Phase, cfg: PolicyConfig): Choice {
    if chunk == [] || ProbeRejects(p, chunk, cfg) then Unpacked(chunk, false)
    else match p.zstd(chunk, cfg.zstdLevel)
      case None => Unpacked(chunk, false)
      case Some(first) =>
        if OverThreshold(|first|, |chunk|, cfg.keepThreshold) then Unpacked(chunk, false)
        else if cfg.escalate && phase.Incremental? && RatioAtLeast(|chunk|, |first|, cfg.escalateRatio) then
          match p.zstd(chunk, cfg.escalateLevel)
          case Some(second) => if |second| < |first| then Escalated(second, true) else Baseline(first, true)
          case None => Baseline(first, true)
        else Baseline(first, false)
  }

  datatype Counters = Counters(
    raw: nat, zstd3: nat, escalated: nat, escalationAttempts: nat, bytesIn: nat, bytesOut: nat)
  {
    function Total(): nat { raw + zstd3 + escalated }
    function BytesSaved(): nat { if bytesOut > bytesIn then 0 else bytesIn - bytesOut }
  }

  const ZERO: Counters := Counters(0, 0, 0, 0, 0, 0)

  function Count(c: Counters, chunk: Bytes, choice: Choice): Counters {
    Counters(
      c.raw + if choice.Unpacked? then 1 else 0,
      c.zstd3 + if choice.Baseline? then 1 else 0,
      c.escalated + if choice.Escalated? then 1 else 0,
      c.escalationAttempts + if choice.attempted then 1 else 0,
      c.bytesIn + |chunk|,
      c.bytesOut + |choice.Payload()|)
  }

  /** The counters a caller passes in and reads back. */
  class PolicyCounters {
    var raw: nat
    var zstd3: nat
    var escalated: nat
    var escalationAttempts: nat
    var bytesIn: nat
    var bytesOut: nat

    function View(): Counters reads this {
      Counters(raw, zstd3, escalated, escalationAttempts, bytesIn, bytesOut)
    }

    constructor ()
      ensures View() == ZERO
    {
      raw, zstd3, escalated, escalationAttempts, bytesIn, bytesOut := 0, 0, 0, 0, 0, 0;
    }
  }

  method ChooseCodec(p: Primitives, chunk: Bytes, phase: Phase, cfg: PolicyConfig, counters: PolicyCounters)
    returns (codec: Codec, payload: Bytes)
    modifies counters
    ensures var choice := Choose(p, chunk, phase, cfg);
            codec == choice.Codec() && payload == choice.Payload()
            && counters.View() == Count(old(counters.View()), chunk, choice)
  {
    counters.bytesIn := counters.bytesIn + |chunk|;
    if chunk == [] {
      counters.raw := counters.raw + 1;
      return Raw, chunk;
    }
    if cfg.useProbe {
      var probeLen := p.lz4Len(chunk);
      if probeLen == 0 {
        probeLen := 1;
      }
      if |chunk| as real / probeLen as real < cfg.probeThreshold {
        counters.raw := counters.raw + 1;
        counters.bytesOut := counters.bytesOut + |chunk|;
        return Raw, chunk;
      }
    }
    var first := p.zstd(chunk, cfg.zstdLevel);
    if first.None? || OverThreshold(|first.value|, |chunk|, cfg.keepThreshold) {
      counters.raw := counters.raw + 1;
      counters.bytesOut := counters.bytesOut + |chunk|;
      return Raw, chunk;
    }
    if cfg.escalate && phase.Incremental? {
      if RatioAtLeast(|chunk|, |first.value|, cfg.escalateRatio) {
        counters.escalationAttempts := counters.escalationAttempts + 1;
        var second := p.zstd(chunk, cfg.escalateLevel);
        if second.Some? && |second.value| < |first.value| {
          counters.escalated := counters.escalated + 1;
          counters.bytesOut := counters.bytesOut + |second.value|;
          return Zstd, second.value;
        }
      }
    }
    counters.zstd3 := counters.zstd3 + 1;
    counters.bytesOut := counters.bytesOut + |first.value|;
    return Zstd, first.value;
  }

  /** Whatever the policy and phase, a stored chunk decodes to the original. */
  lemma DecodeWhatWasChosen(p: Primitives, chunk: Bytes, phase: Phase, cfg: PolicyConfig)
    requires ZstdLaw(p)
    ensures var choice := Choose(p, chunk, phase, cfg);
            DecodeChunk(p, Frame(choice.Codec(), choice.Payload())) == Ok(chunk)
  {
    var choice := Choose(p, chunk, phase, cfg);
    assert Frame(choice.Codec(), choice.Payload())[1..] == choice.Payload();
  }

  // ---- whole runs -----------------------------------------------------------

  /** Chunks in the order they were chosen for, with what was chosen. */
  type Log = seq<(Bytes, Choice)>

  function LogOf(p: Primitives, chunks: seq<Bytes>, phase: Phase, cfg: PolicyConfig): (log: Log)
    ensures |log| == |chunks|
  {
    seq(|chunks|, i requires 0 <= i < |chunks| => (chunks[i], Choose(p, chunks[i], phase, cfg)))
  }

  /** The counters after a log. */
  function Tally(log: Log): Counters {
    if log == [] then ZERO else
      var k := |log| - 1;
      Count(Tally(log[..k]), log[k].0, log[k].1)
  }

  function ChunkBytes(log: Log): nat {
    if log == [] then 0 else ChunkBytes(log[..|log| - 1]) + |log[|log| - 1].0|
  }

  function PayloadBytes(log: Log): nat {
    if log == [] then 0 else PayloadBytes(log[..|log| - 1]) + |log[|log| - 1].1.Payload()|
  }

  /** Every chunk lands in exactly one bucket, and bytes in and out are the
      sums of chunk and payload lengths. */
  lemma TallySums(log: Log)
    ensures Tally(log).Total() == |log|
    ensures Tally(log).bytesIn == ChunkBytes(log)
    ensures Tally(log).bytesOut == PayloadBytes(log)
  {
    TallyTotal(log);
    TallyBytesIn(log);
    TallyBytesOut(log);
  }

  lemma {:induction false} TallyTotal(log: Log)
    ensures Tally(log).Total() == |log|
  {
    if log != [] {
      TallyTotal(log[..|log| - 1]);
    }
  }

  lemma {:induction false} TallyBytesIn(log: Log)
    ensures Tally(log).bytesIn == ChunkBytes(log)
  {
    if log != [] {
      TallyBytesIn(log[..|log| - 1]);
    }
  }

  lemma {:induction false} TallyBytesOut(log: Log)
    ensures Tally(log).bytesOut == PayloadBytes(log)
  {
    if log != [] {
      TallyBytesOut(log[..|log| - 1]);
    }
  }

  lemma ChoiceAttempts(p: Primitives, chunk: Bytes, phase: Phase, cfg: PolicyConfig)
    ensures var choice := Choose(p, chunk, phase, cfg);
            && (choice.Escalated? ==> choice.attempted)
            && (phase.InitialFull? || !cfg.escalate ==> !choice.attempted)
  {}

  /** The retry is kept at most as often as it is invoked, and never invoked
      during the first full backup or when not configured. */
  lemma {:induction false} EscalationIsGated(p: Primitives, chunks: seq<Bytes>, phase: Phase, cfg: PolicyConfig)
    ensures var c := Tally(LogOf(p, chunks, phase, cfg));
            && c.escalated <= c.escalationAttempts
            && (phase.InitialFull? || !cfg.escalate ==> c.escalationAttempts == 0)
  {
    if chunks != [] {
      var k := |chunks| - 1;
      EscalationIsGated(p, chunks[..k], phase, cfg);
      ChoiceAttempts(p, chunks[k], phase, cfg);
      assert LogOf(p, chunks, phase, cfg)[..k] == LogOf(p, chunks[..k], phase, cfg);
    }
  }

  lemma MulMonotone(x: real, t: real)
    requires x >= 0.0 && t <= 1.0
    ensures x * t <= x
  {
    assert x - x * t == x * (1.0 - t);
  }

  lemma KeptIsNoLonger(len: nat, raw: nat, t: real)
    requires t <= 1.0 && !OverThreshold(len, raw, Finite(t))
    ensures len <= raw
  {
    MulMonotone(raw as real, t);
  }

  lemma ChoiceNeverGrows(p: Primitives, chunk: Bytes, phase: Phase, cfg: PolicyConfig)
    requires cfg.keepThreshold.Finite? && cfg.keepThreshold.t <= 1.0
    ensures |Choose(p, chunk, phase, cfg).Payload()| <= |chunk|
  {
    var first := p.zstd(chunk, cfg.zstdLevel);
    if first.Some? && !OverThreshold(|first.value|, |chunk|, cfg.keepThreshold) {
      KeptIsNoLonger(|first.value|, |chunk|, cfg.keepThreshold.t);
    }
  }

  lemma {:induction false} TallyNeverGrows(p: Primitives, chunks: seq<Bytes>, phase: Phase, cfg: PolicyConfig)
    requires cfg.keepThreshold.Finite? && cfg.keepThreshold.t <= 1.0
    ensures var c := Tally(LogOf(p, chunks, phase, cfg));
            c.bytesOut <= c.bytesIn && c.BytesSaved() + c.bytesOut == c.bytesIn
  {
    if chunks != [] {
      var k := |chunks| - 1;
      TallyNeverGrows(p, chunks[..k], phase, cfg);
      ChoiceNeverGrows(p, chunks[k], phase, cfg);
      assert LogOf(p, chunks, phase, cfg)[..k] == LogOf(p, chunks[..k], phase, cfg);
    }
  }

  /** A threshold that never lets an attempt longer than the chunk be kept. */
  predicate AtMostOne(t: Threshold) {
    t.Finite? && t.t <= 1.0
  }

  /** Compression can cost bytes exactly when the keep threshold is above one,
      or infinite: only then may a lawful compressor's longer output be kept. */
  lemma NeverGrowsIff(t: Threshold)
    ensures (forall p: Primitives, chunk: Bytes, phase: Phase | Lawful(p) ::
               |Choose(p, chunk, phase, DEFAULT_POLICY.(keepThreshold := t)).Payload()| <= |chunk|)
       <==> AtMostOne(t)
  {
    var cfg := DEFAULT_POLICY.(keepThreshold := t);
    if AtMostOne(t) {
      forall p: Primitives, chunk: Bytes, phase: Phase
        ensures |Choose(p, chunk, phase, cfg).Payload()| <= |chunk|
      {
        ChoiceNeverGrows(p, chunk, phase, cfg);
      }
    } else {
      var n := if t.Infinite? then 1 else (1.0 / (t.t - 1.0)).Floor + 1;
      if t.Finite? {
        EnoughRoom(t.t, n);
      }
      var p, chunk: Bytes := Padding(1), seq(n, _ => 0);
      PaddingIsLawful(1);
      assert |Choose(p, chunk, InitialFull, cfg).Payload()| == n + 1;
    }
  }

  lemma EnoughRoom(t: real, n: int)
    requires t > 1.0 && n == (1.0 / (t - 1.0)).Floor + 1
    ensures n >= 1 && (n + 1) as real <= n as real * t
  {
    var d := t - 1.0;
    assert 1.0 / d * d == 1.0;
    assert n as real > 1.0 / d;
    MulMonotoneLeft(1.0 / d, n as real, d);
    assert n as real * t == n as real + n as real * d;
  }

  lemma MulMonotoneLeft(a: real, b: real, d: real)
    requires a <= b && d >= 0.0
    ensures a * d <= b * d
  {}
}
