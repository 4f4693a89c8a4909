/** One reader thread broadcasting the blocks of a source over bounded queues
    to one chunker thread per candidate: every interleaving of their steps,
    and every way the source and the chunkers split their reads. */
module FanOut {
  import opened Bytes
  import opened Wrappers

  const BLOCK_SIZE: nat := 256 * 1024
  const CHANNEL_DEPTH: nat := 4

  datatype Life = Running | Finished | Failed

  /** A chunker thread with its `ChannelReader`: the blocks queued for it, what
      is left of the current one, and what it has consumed. */
  datatype Worker = Worker(queue: seq<Bytes>, current: Bytes, consumed: Bytes, life: Life)

  datatype Reader =
    | Reading
    | Sending(block: Bytes, next: nat)  // to the workers from `next` on
    | Closed(failed: bool)              // the senders are dropped

  /** `interrupts` is how often a read of the source is still interrupted. */
  datatype State = State(offset: nat, reader: Reader, workers: seq<Worker>, interrupts: nat)

  datatype Step =
    | ReadBlock(n: nat)
    | Interrupted
    | SourceEnds
    | SourceFails
    | Send
    | Recv(w: nat)
    | Read(w: nat, want: nat)
    | End(w: nat)
    | Fail(w: nat)

  const FRESH: Worker := Worker([], [], [], Running)

  function Init(n: nat, interrupts: nat): State {
    State(0, Reading, seq(n, _ => FRESH), interrupts)
  }

  /** A send blocks while the queue is full, and fails at once, which the
      reader ignores, when the receiver is gone. */
  predicate CanSend(worker: Worker) {
    worker.life.Running? ==> |worker.queue| < CHANNEL_DEPTH
  }

  predicate Alive(s: State, w: nat) {
    w < |s.workers| && s.workers[w].life.Running?
  }

  predicate Enabled(source: Bytes, s: State, step: Step) {
    match step
    case ReadBlock(n) => s.reader.Reading? && 0 < n <= BLOCK_SIZE && s.offset + n <= |source|
    case Interrupted => s.reader.Reading? && s.interrupts > 0
    case SourceEnds => s.reader.Reading? && s.offset == |source|
    case SourceFails => s.reader.Reading?
    case Send => s.reader.Sending? && s.reader.next < |s.workers| && CanSend(s.workers[s.reader.next])
    case Recv(w) => Alive(s, w) && s.workers[w].current == [] && s.workers[w].queue != []
    case Read(w, want) => Alive(s, w) && s.workers[w].current != [] && want > 0
    case End(w) => Alive(s, w) && s.workers[w].current == [] && s.workers[w].queue == [] && s.reader.Closed?
    case Fail(w) => Alive(s, w)
  }

  /** The reader once the workers before `next` have been sent `block`. */
  function SendFrom(block: Bytes, next: nat, n: nat): Reader {
    if next >= n then Reading else Sending(block, next)
  }

  function Take(worker: Worker, want: nat): Worker {
    var n := if want < |worker.current| then want else |worker.current|;
    worker.(consumed := worker.consumed + worker.current[..n], current := worker.current[n..])
  }

  function Apply(source: Bytes, s: State, step: Step): State
    requires Enabled(source, s, step)
  {
    match step
    case ReadBlock(n) =>
      s.(offset := s.offset + n, reader := SendFrom(source[s.offset..s.offset + n], 0, |s.workers|))
    case Interrupted => s.(interrupts := s.interrupts - 1)
    case SourceEnds => s.(reader := Closed(false))
    case SourceFails => s.(reader := Closed(true))
    case Send =>
      var worker := s.workers[s.reader.next];
      var sent := if worker.life.Running? then worker.(queue := worker.queue + [s.reader.block]) else worker;
      s.(workers := s.workers[s.reader.next := sent],
         reader := SendFrom(s.reader.block, s.reader.next + 1, |s.workers|))
    case Recv(w) =>
      var worker := s.workers[w];
      s.(workers := s.workers[w := worker.(current := worker.queue[0], queue := worker.queue[1..])])
    case Read(w, want) => s.(workers := s.workers[w := Take(s.workers[w], want)])
    case End(w) => s.(workers := s.workers[w := s.workers[w].(life := Finished)])
    case Fail(w) => s.(workers := s.workers[w := s.workers[w].(life := Failed, queue := [], current := [])])
  }

  type Run = seq<Step>

  ghost predicate Legal(source: Bytes, s0: State, run: Run)
    decreases |run|, 0
  {
    run == [] || (var k := |run| - 1; Legal(source, s0, run[..k]) && Enabled(source, After(source, s0, run[..k]), run[k]))
  }

  ghost function After(source: Bytes, s0: State, run: Run): State
    requires Legal(source, s0, run)
    decreases |run|, 1
  {
    if run == [] then s0 else
      var k := |run| - 1;
      Apply(source, After(source, s0, run[..k]), run[k])
  }

  // ---- the invariant ---------------------------------------------------------

  /** How much of the source has been sent to worker `w`. */
  function SentTo(s: State, w: nat): int {
    if s.reader.Sending? && s.reader.next <= w then s.offset - |s.reader.block| else s.offset
  }

  /** What a worker consumed, what is left of its block and what is queued for
      it are, in that order, the part of the source sent to it. */
  ghost predicate WorkerOk(source: Bytes, s: State, w: nat)
    requires w < |s.workers| && s.offset <= |source|
  {
    var worker := s.workers[w];
    && 0 <= SentTo(s, w)
    && |worker.queue| <= CHANNEL_DEPTH
    && (worker.life.Running? ==> worker.consumed + (worker.current + Concat(worker.queue)) == source[..SentTo(s, w)])
    && (worker.life.Finished? ==> s.reader.Closed? && worker.consumed == source[..s.offset])
    && (!worker.life.Running? ==> worker.queue == [] && worker.current == [])
  }

  ghost predicate ReaderOk(source: Bytes, s: State) {
    && s.offset <= |source|
    && (s.reader == Closed(false) ==> s.offset == |source|)
    && (s.reader.Sending? ==>
          && s.reader.next < |s.workers| && 0 < |s.reader.block| <= s.offset
          && s.reader.block == source[s.offset - |s.reader.block|..s.offset])
  }

  ghost predicate Inv(source: Bytes, s: State) {
    ReaderOk(source, s) && forall w | 0 <= w < |s.workers| :: WorkerOk(source, s, w)
  }

  lemma ReaderStepsKeepInv(source: Bytes, s: State, step: Step)
    requires Inv(source, s) && Enabled(source, s, step)
    requires step.ReadBlock? || step.Interrupted? || step.SourceEnds? || step.SourceFails?
    ensures Inv(source, Apply(source, s, step))
  {
    var s' := Apply(source, s, step);
    forall w | 0 <= w < |s'.workers|
      ensures WorkerOk(source, s', w)
    {
      assert WorkerOk(source, s, w);
    }
  }

  /** A worker that gets a block has it last in its queue. */
  lemma SendKeeps(worker: Worker, sent: Bytes, block: Bytes)
    requires worker.consumed + (worker.current + Concat(worker.queue)) == sent
    ensures worker.consumed + (worker.current + Concat(worker.queue + [block])) == sent + block
  {
    ConcatSnoc(worker.queue, block);
    Regroup(worker.consumed, worker.current, Concat(worker.queue), block);
  }

  lemma Regroup(a: Bytes, b: Bytes, c: Bytes, d: Bytes)
    ensures a + (b + (c + d)) == (a + (b + c)) + d
  {}

  lemma SendReaches(source: Bytes, s: State)
    requires ReaderOk(source, s) && Enabled(source, s, Send) && WorkerOk(source, s, s.reader.next)
    ensures WorkerOk(source, Apply(source, s, Send), s.reader.next)
  {
    var block, worker := s.reader.block, s.workers[s.reader.next];
    if worker.life.Running? {
      SendKeeps(worker, source[..s.offset - |block|], block);
      assert source[..s.offset] == source[..s.offset - |block|] + block;
    }
  }

  lemma SendKeepsInv(source: Bytes, s: State)
    requires Inv(source, s) && Enabled(source, s, Send)
    ensures Inv(source, Apply(source, s, Send))
  {
    var s' := Apply(source, s, Send);
    SendReaches(source, s);
    forall w | 0 <= w < |s'.workers|
      ensures WorkerOk(source, s', w)
    {
      assert WorkerOk(source, s, w);
    }
  }

  lemma RecvKeeps(worker: Worker)
    requires worker.current == [] && worker.queue != []
    ensures worker.queue[0] + Concat(worker.queue[1..]) == worker.current + Concat(worker.queue)
  {}

  lemma ReadKeeps(worker: Worker, want: nat)
    ensures var taken := Take(worker, want);
            && taken.consumed + (taken.current + Concat(taken.queue)) == worker.consumed + (worker.current + Concat(worker.queue))
            && taken.queue == worker.queue && taken.life == worker.life
  {
    var n := if want < |worker.current| then want else |worker.current|;
    assert worker.current == worker.current[..n] + worker.current[n..];
    Reassociate(worker.consumed, worker.current[..n], worker.current[n..], Concat(worker.queue));
  }

  lemma Reassociate(a: Bytes, b: Bytes, c: Bytes, d: Bytes)
    ensures (a + b) + (c + d) == a + ((b + c) + d)
  {}

  lemma WorkerStepKeepsIt(source: Bytes, s: State, step: Step, w: nat)
    requires ReaderOk(source, s) && Enabled(source, s, step)
    requires (step.Recv? || step.Read? || step.End? || step.Fail?) && step.w == w && WorkerOk(source, s, w)
    ensures WorkerOk(source, Apply(source, s, step), w)
  {
    var worker := s.workers[w];
    match step
    case Recv(_) => RecvKeeps(worker);
    case Read(_, want) => ReadKeeps(worker, want);
    case End(_) => assert worker.consumed + ([] + Concat([])) == worker.consumed;
    case _ =>
  }

  lemma WorkerStepsKeepInv(source: Bytes, s: State, step: Step, w0: nat)
    requires Inv(source, s) && Enabled(source, s, step)
    requires (step.Recv? || step.Read? || step.End? || step.Fail?) && step.w == w0
    ensures Inv(source, Apply(source, s, step))
  {
    var s' := Apply(source, s, step);
    WorkerStepKeepsIt(source, s, step, w0);
    forall w | 0 <= w < |s'.workers|
      ensures WorkerOk(source, s', w)
    {
      assert WorkerOk(source, s, w);
    }
  }

  lemma StepKeepsInv(source: Bytes, s: State, step: Step)
    requires Inv(source, s) && Enabled(source, s, step)
    ensures Inv(source, Apply(source, s, step))
  {
    match step
    case Send => SendKeepsInv(source, s);
    case Recv(w) => WorkerStepsKeepInv(source, s, step, w);
    case Read(w, _) => WorkerStepsKeepInv(source, s, step, w);
    case End(w) => WorkerStepsKeepInv(source, s, step, w);
    case Fail(w) => WorkerStepsKeepInv(source, s, step, w);
    case _ => ReaderStepsKeepInv(source, s, step);
  }

  lemma {:induction false} RunKeepsInv(source: Bytes, n: nat, interrupts: nat, run: Run)
    requires Legal(source, Init(n, interrupts), run)
    ensures Inv(source, After(source, Init(n, interrupts), run))
    ensures |After(source, Init(n, interrupts), run).workers| == n
  {
    if run != [] {
      var k := |run| - 1;
      RunKeepsInv(source, n, interrupts, run[..k]);
      StepKeepsInv(source, After(source, Init(n, interrupts), run[..k]), run[k]);
    }
  }

  // ---- the outcome -------------------------------------------------------------

  /** Every thread has come to its end. */
  predicate Done(s: State) {
    s.reader.Closed? && forall w | 0 <= w < |s.workers| :: !s.workers[w].life.Running?
  }

  datatype FanOutError = SourceError | WorkerError(w: nat)

  datatype Outcome<C> = Outcome(perCandidate: seq<C>, bytesRead: nat)

  function FirstFailed(workers: seq<Worker>, from: nat): (r: Option<nat>)
    requires from <= |workers|
    ensures r.None? ==> forall w | from <= w < |workers| :: !workers[w].life.Failed?
    ensures r.Some? ==> from <= r.value < |workers| && workers[r.value].life.Failed?
    ensures r.Some? ==> forall w | from <= w < r.value :: !workers[w].life.Failed?
    decreases |workers| - from
  {
    if from == |workers| then None
    else if workers[from].life.Failed? then Some(from)
    else FirstFailed(workers, from + 1)
  }

  /** What `fan_out_chunks` returns once every thread is joined. A chunker that
      finishes yields what its candidate makes of the bytes it consumed. */
  function Join<C>(chunkers: seq<Bytes -> C>, s: State): Result<Outcome<C>, FanOutError>
    requires |chunkers| == |s.workers|
  {
    if s.reader == Closed(true) then Err(SourceError)
    else match FirstFailed(s.workers, 0)
      case Some(w) => Err(WorkerError(w))
      case None => Ok(Outcome(seq(|chunkers|, w requires 0 <= w < |chunkers| => chunkers[w](s.workers[w].consumed)), s.offset))
  }

  /** Each candidate run alone over the whole source. */
  function Standalone<C>(chunkers: seq<Bytes -> C>, source: Bytes): Outcome<C> {
    Outcome(seq(|chunkers|, w requires 0 <= w < |chunkers| => chunkers[w](source)), |source|)
  }

  /** Whatever the schedule, a run that ends returns each candidate's result
      over the whole source, read once, unless the source or a chunker
      failed; and then it returns that error, the source's first. */
  lemma ScheduleIndependent<C>(chunkers: seq<Bytes -> C>, source: Bytes, interrupts: nat, run: Run)
    requires Legal(source, Init(|chunkers|, interrupts), run) && Done(After(source, Init(|chunkers|, interrupts), run))
    ensures var s := After(source, Init(|chunkers|, interrupts), run);
            |s.workers| == |chunkers|
            && (Join(chunkers, s).Ok? <==> !s.reader.failed && forall w | 0 <= w < |s.workers| :: !s.workers[w].life.Failed?)
            && (Join(chunkers, s).Ok? ==> Join(chunkers, s) == Ok(Standalone(chunkers, source)))
  {
    var s := After(source, Init(|chunkers|, interrupts), run);
    RunKeepsInv(source, |chunkers|, interrupts, run);
    if Join(chunkers, s).Ok? {
      forall w | 0 <= w < |chunkers|
        ensures s.workers[w].consumed == source
      {
        assert WorkerOk(source, s, w);
        assert source[..|source|] == source;
      }
      assert Join(chunkers, s).value.perCandidate == Standalone(chunkers, source).perCandidate;
    }
  }

  // ---- no deadlock -----------------------------------------------------------

  predicate Productive(step: Step) {
    !step.Interrupted? && !step.SourceFails? && !step.Fail?
  }

  /** Until every thread has ended some thread can go on, and not only by
      failing. */
  lemma NoDeadlock(source: Bytes, s: State) returns (step: Step)
    requires Inv(source, s) && !Done(s)
    ensures Enabled(source, s, step) && Productive(step)
  {
    if s.reader.Reading? {
      step := if s.offset == |source| then SourceEnds else ReadBlock(1);
    } else {
      var w: nat;
      if s.reader.Sending? {
        w := s.reader.next;
        if CanSend(s.workers[w]) {
          return Send;
        }
      } else {
        w :| w < |s.workers| && s.workers[w].life.Running?;
      }
      var worker := s.workers[w];
      step := if worker.current != [] then Read(w, 1) else if worker.queue != [] then Recv(w) else End(w);
    }
  }

  // ---- termination --------------------------------------------------------------

  function QueueWork(queue: seq<Bytes>): nat {
    if queue == [] then 0 else 1 + |queue[0]| + QueueWork(queue[1..])
  }

  /** Steps a worker can still account for. */
  function WorkerWork(source: Bytes, s: State, w: nat): nat
    requires w < |s.workers| && s.offset <= |source|
  {
    var worker := s.workers[w];
    3 * (|source| - s.offset)
    + (if s.reader.Sending? && s.reader.next <= w then 2 + |s.reader.block| else 0)
    + QueueWork(worker.queue) + |worker.current| + (if worker.life.Running? then 1 else 0)
  }

  function SumWork(source: Bytes, s: State, n: nat): nat
    requires n <= |s.workers| && s.offset <= |source|
  {
    if n == 0 then 0 else SumWork(source, s, n - 1) + WorkerWork(source, s, n - 1)
  }

  function ReaderWork(source: Bytes, s: State): nat
    requires s.offset <= |source|
  {
    2 * (|source| - s.offset) + s.interrupts
    + (match s.reader case Reading => 1 case Sending(_, _) => 2 case Closed(_) => 0)
  }

  function Work(source: Bytes, s: State): nat
    requires s.offset <= |source|
  {
    ReaderWork(source, s) + SumWork(source, s, |s.workers|)
  }

  lemma {:induction false} QueueWorkSnoc(queue: seq<Bytes>, block: Bytes)
    ensures QueueWork(queue + [block]) == QueueWork(queue) + 1 + |block|
  {
    if queue == [] {
      assert (queue + [block])[1..] == [];
    } else {
      QueueWorkSnoc(queue[1..], block);
      assert (queue + [block])[1..] == queue[1..] + [block];
    }
  }

  lemma {:induction false} SumWorkFalls(source: Bytes, s: State, s': State, n: nat, falls: nat)
    requires s.offset <= |source| && s'.offset <= |source| && n <= |s.workers| == |s'.workers|
    requires forall w | 0 <= w < |s.workers| :: WorkerWork(source, s', w) <= WorkerWork(source, s, w)
    requires falls < |s.workers| ==> WorkerWork(source, s', falls) < WorkerWork(source, s, falls)
    ensures SumWork(source, s', n) <= SumWork(source, s, n)
    ensures falls < n ==> SumWork(source, s', n) < SumWork(source, s, n)
  {
    if n > 0 {
      SumWorkFalls(source, s, s', n - 1, falls);
    }
  }

  /** No worker has more left to do, and either worker `falls` or, if that is
      none, the reader has less. */
  ghost predicate Falling(source: Bytes, s: State, s': State, falls: nat) {
    && s.offset <= |source| && s'.offset <= |source| && |s.workers| == |s'.workers|
    && ReaderWork(source, s') <= ReaderWork(source, s)
    && (forall w | 0 <= w < |s.workers| :: WorkerWork(source, s', w) <= WorkerWork(source, s, w))
    && if falls < |s.workers| then WorkerWork(source, s', falls) < WorkerWork(source, s, falls)
       else ReaderWork(source, s') < ReaderWork(source, s)
  }

  lemma SendFalls(source: Bytes, s: State)
    requires Inv(source, s) && Enabled(source, s, Send)
    ensures Falling(source, s, Apply(source, s, Send), s.reader.next)
  {
    QueueWorkSnoc(s.workers[s.reader.next].queue, s.reader.block);
  }

  lemma WorkerFalls(source: Bytes, s: State, step: Step, w: nat)
    requires Inv(source, s) && Enabled(source, s, step)
    requires step == Recv(w) || (step.Read? && step.w == w) || step == End(w) || step == Fail(w)
    ensures Falling(source, s, Apply(source, s, step), w)
  {}

  lemma ReaderFalls(source: Bytes, s: State, step: Step)
    requires Inv(source, s) && Enabled(source, s, step)
    requires !step.Send? && !step.Recv? && !step.Read? && !step.End? && !step.Fail?
    ensures Falling(source, s, Apply(source, s, step), |s.workers|)
  {}

  lemma StepFalls(source: Bytes, s: State, step: Step) returns (falls: nat)
    requires Inv(source, s) && Enabled(source, s, step)
    ensures Falling(source, s, Apply(source, s, step), falls)
  {
    if step.Send? {
      SendFalls(source, s);
      falls := s.reader.next;
    } else if step.Recv? || step.Read? || step.End? || step.Fail? {
      falls := step.w;
      WorkerFalls(source, s, step, falls);
    } else {
      ReaderFalls(source, s, step);
      falls := |s.workers|;
    }
  }

  lemma FallingWorks(source: Bytes, s: State, s': State, falls: nat)
    requires Falling(source, s, s', falls)
    ensures Work(source, s') < Work(source, s)
  {
    SumWorkFalls(source, s, s', |s.workers|, falls);
  }

  lemma StepWorks(source: Bytes, s: State, step: Step)
    requires Inv(source, s) && Enabled(source, s, step)
    ensures Inv(source, Apply(source, s, step))
    ensures Work(source, Apply(source, s, step)) < Work(source, s)
  {
    StepKeepsInv(source, s, step);
    var falls := StepFalls(source, s, step);
    FallingWorks(source, s, Apply(source, s, step), falls);
  }

  /** No schedule runs for ever: a run is no longer than the work there was. */
  lemma {:induction false} Terminates(source: Bytes, n: nat, interrupts: nat, run: Run)
    requires Legal(source, Init(n, interrupts), run)
    ensures Inv(source, After(source, Init(n, interrupts), run))
    ensures |run| + Work(source, After(source, Init(n, interrupts), run)) <= Work(source, Init(n, interrupts))
  {
    if run != [] {
      var k := |run| - 1;
      Terminates(source, n, interrupts, run[..k]);
      StepWorks(source, After(source, Init(n, interrupts), run[..k]), run[k]);
    }
  }

  /** From any reachable state the threads can be scheduled to their end. */
  lemma {:induction false} CanFinish(source: Bytes, s: State) returns (rest: Run)
    requires Inv(source, s)
    ensures Legal(source, s, rest) && Done(After(source, s, rest))
    decreases Work(source, s)
  {
    if Done(s) {
      rest := [];
    } else {
      var step := NoDeadlock(source, s);
      StepWorks(source, s, step);
      var s' := Apply(source, s, step);
      var more := CanFinish(source, s');
      rest := [step] + more;
      RunFrom(source, s, step, more);
    }
  }

  lemma {:induction false} RunFrom(source: Bytes, s: State, step: Step, more: Run)
    requires Enabled(source, s, step) && Legal(source, Apply(source, s, step), more)
    ensures Legal(source, s, [step] + more)
    ensures After(source, s, [step] + more) == After(source, Apply(source, s, step), more)
  {
    var run := [step] + more;
    if more == [] {
      assert run[..0] == [] && run == [step];
    } else {
      var k := |more| - 1;
      RunFrom(source, s, step, more[..k]);
      assert run[..|run| - 1] == [step] + more[..k] && run[|run| - 1] == more[k];
    }
  }

  // ---- the channel reader ----------------------------------------------------

  lemma SplitAt(block: Bytes, pos: nat, n: nat, more: Bytes)
    requires pos + n <= |block|
    ensures block[pos..pos + n] + (block[pos + n..] + more) == block[pos..] + more
  {}

  /** A chunker's view of its queue, given what will come through it before the
      sender hangs up. */
  class ChannelReader {
    var incoming: seq<Bytes>
    var current: Option<Bytes>
    var pos: nat

    ghost predicate Valid()
      reads this
    {
      current.Some? ==> pos <= |current.value|
    }

    /** The bytes this reader has still to give out. */
    ghost function Remaining(): Bytes
      requires Valid()
      reads this
    {
      (if current.Some? then current.value[pos..] else []) + Concat(incoming)
    }

    constructor (incoming: seq<Bytes>)
      ensures Valid() && Remaining() == Concat(incoming)
    {
      this.incoming, current, pos := incoming, None, 0;
    }

    /** `read`: fills the front of `buf` with the next bytes of one block,
        skipping spent and empty blocks. It gives out nothing only if asked
        for nothing or at the end of the stream. */
    method Read(buf: array<byte>) returns (n: nat)
      requires Valid()
      modifies this, buf
      ensures Valid() && n <= buf.Length
      ensures buf[..n] + Remaining() == old(Remaining()) && buf[n..] == old(buf[n..])
      ensures n == 0 <==> buf.Length == 0 || old(Remaining()) == []
    {
      if buf.Length == 0 {
        return 0;
      }
      while true
        invariant Valid() && Remaining() == old(Remaining()) && buf[..] == old(buf[..])
        decreases |incoming|, if current.Some? then 1 else 0
      {
        if current.Some? {
          var block := current.value;
          if pos < |block| {
            n := if buf.Length < |block| - pos then buf.Length else |block| - pos;
            forall i | 0 <= i < n {
              buf[i] := block[pos + i];
            }
            assert buf[..n] == block[pos..pos + n];
            SplitAt(block, pos, n, Concat(incoming));
            pos := pos + n;
            return n;
          }
          current := None;
        }
        if incoming == [] {
          return 0;
        }
        current, incoming, pos := Some(incoming[0]), incoming[1..], 0;
      }
    }
  }
}
