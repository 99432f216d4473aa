/** Steady-state warmup as a state machine (src/kvbench/servers/warmup.py).

N workers share one progress counter: each checks it before a store and adds to it after.  A worker's turn is
split at its await, so the runs below contain every interleaving.  The stack is the FIFO stack; a store enters
it in call order. */
module Warmup {
  import opened Wrappers
  import opened Arith
  import opened FifoStack
  import opened PrefixStack
  import opened Sums
  import opened WarmupNonce

  datatype RunState = Idle | Running | Done | Cancelled | Error

  /** Waiting to check the counter, inside a store, returned, raised by the stack, or cancelled. */
  datatype Worker = Waiting | Storing | Exited | Failed | Stopped

  predicate Live(w: Worker) { w.Waiting? || w.Storing? }

  /** What `capacity_info` reports. */
  datatype Capacity = Capacity(chunkSize: nat, bytesPerToken: nat, totalBytes: nat) {
    function ChunkSize(): Pos { if chunkSize == 0 then 256 else chunkSize }
  }

  /** The request parameters, within the bounds the request model enforces. */
  datatype Params = Params(targetGb: Option<real>, fillFactor: real, seqTokens: nat, concurrency: nat) {
    predicate Valid()
    {
      && (targetGb.Some? ==> targetGb.value > 0.0) && 0.0 < fillFactor <= 10.0
      && 256 <= seqTokens <= 131072 && 1 <= concurrency <= 64
    }
  }

  datatype Controller = Controller(
    state: RunState, target: int, storedBytes: int, sequences: nat, evicting: bool,
    seqTokens: nat, firstSeq: Option<seq<int>>, seqCounter: nat, workers: seq<Worker>, attempts: nat,
    runStart: nat, history: seq<seq<int>>)

  function Initial(): Controller { Controller(Idle, 0, 0, 0, false, 0, None, 0, [], 0, 0, []) }

  const EVICTION_CHECK_ATTEMPTS: nat := 5

  // ---------------------------------------------------------------- parameters

  /** `max(chunk_size, (seq_tokens // chunk_size) * chunk_size)`. */
  function SeqTokens(cs: Pos, requested: nat): nat { Max(cs, AlignDown(requested, cs)) }

  /** The target in bytes, or none when the stack reports no capacity and no target was given. */
  function TargetBytes(c: Capacity, p: Params): Option<int>
  {
    match p.targetGb
    case Some(gb) => Some((gb * 1073741824.0).Floor)
    case None => if c.totalBytes == 0 then None else Some((c.totalBytes as real * p.fillFactor).Floor)
  }

  /** Every accepted request yields sequences of whole chunks, long enough for the counter. */
  lemma SeqTokensFit(cs: Pos, requested: nat)
    requires 256 <= requested
    ensures SeqTokens(cs, requested) >= cs && Mod(SeqTokens(cs, requested), cs) == 0
    ensures SeqTokens(cs, requested) >= 8
  {
    AlignedIsMultiple(requested, cs);
    assert Mod(cs, cs) == 0;
  }

  /** The largest whole number of chunks the request has room for, and at least one chunk. */
  lemma SeqTokensIs(cs: Pos, requested: nat)
    ensures SeqTokens(cs, requested) == Max(cs, requested / cs * cs)
  {
    AlignedNatively(requested, cs);
    assert cs * (requested / cs) == requested / cs * cs;
  }

  /** n is x rounded down. */
  predicate RoundsDown(n: int, x: real) { n as real <= x < n as real + 1.0 }

  /** A gigabyte is 1024^3 bytes; a target that is not given comes from the capacity; both are rounded down. */
  lemma TargetBytesIs(c: Capacity, p: Params)
    ensures TargetBytes(c, p).None? <==> p.targetGb.None? && c.totalBytes == 0
    ensures p.targetGb.Some? ==> RoundsDown(TargetBytes(c, p).value, p.targetGb.value * 1024.0 * 1024.0 * 1024.0)
    ensures p.targetGb.None? && c.totalBytes > 0 ==>
      RoundsDown(TargetBytes(c, p).value, c.totalBytes as real * p.fillFactor)
  {
  }

  lemma TargetNonNegative(c: Capacity, p: Params)
    requires p.Valid() && TargetBytes(c, p).Some?
    ensures TargetBytes(c, p).value >= 0
  {
  }

  /** `seq_bytes`. */
  function SeqBytes(c: Capacity, s: Controller): nat { Offset(c.bytesPerToken, s.seqTokens) }

  // ---------------------------------------------------------------- steps

  datatype Event =
    | Start(params: Params)
    | Begin(i: nat, tokens: seq<int>)
    | Return(i: nat)
    | Exit(i: nat)
    | Raise(i: nat)
    | Check
    | Cancel

  /** What the FIFO stack still holds after a history of stores. */
  ghost function Cached(c: Capacity, history: seq<seq<int>>): seq<seq<int>>
  {
    history[Evicted(Weight(c.bytesPerToken), c.totalBytes, history)..]
  }

  /** `hit_tokens < len(first_seq)`. */
  ghost predicate FirstEvicted(c: Capacity, s: Controller)
  {
    s.firstSeq.Some? && s.firstSeq.value !in Cached(c, s.history)
  }

  ghost predicate AllOf(workers: seq<Worker>, p: Worker -> bool)
  {
    forall i {:trigger workers[i]} | 0 <= i < |workers| :: p(workers[i])
  }

  function Quiet(): Worker -> bool { w => !Live(w) }

  function Finished(): Worker -> bool { w => w == Exited }

  /** The workers of a cancelled run. */
  function StopAll(workers: seq<Worker>): (stopped: seq<Worker>)
    ensures |stopped| == |workers|
    ensures forall i {:trigger stopped[i]} | 0 <= i < |workers| ::
      stopped[i] == if Live(workers[i]) then Stopped else workers[i]
  {
    seq(|workers|, i requires 0 <= i < |workers| => if Live(workers[i]) then Stopped else workers[i])
  }

  /** A start is refused while running; restarting a failed run whose workers are still alive is left to
      WarmupRestarts. */
  ghost predicate Enabled(c: Capacity, s: Controller, e: Event)
  {
    match e
    case Start(p) => p.Valid() && !s.state.Running? && TargetBytes(c, p).Some? && AllOf(s.workers, Quiet())
    case Begin(i, tokens) =>
      && i < |s.workers| && s.workers[i].Waiting? && s.storedBytes < s.target
      && |tokens| == s.seqTokens && Encodes(tokens, s.seqCounter + 1)
    case Return(i) => i < |s.workers| && s.workers[i].Storing?
    case Exit(i) => i < |s.workers| && s.workers[i].Waiting? && s.storedBytes >= s.target
    case Raise(i) => i < |s.workers| && s.workers[i].Storing?
    case Check => s.state.Running? && AllOf(s.workers, Finished())
    case Cancel => s.state.Running?
  }

  ghost function Apply(c: Capacity, s: Controller, e: Event): Controller
    requires Enabled(c, s, e)
  {
    match e
    case Start(p) =>
      s.(state := Running, target := TargetBytes(c, p).value, storedBytes := 0, sequences := 0, evicting := false,
         seqTokens := SeqTokens(c.ChunkSize(), p.seqTokens), firstSeq := None,
         workers := seq(p.concurrency, _ => Waiting), attempts := 0, runStart := |s.history|)
    case Begin(i, tokens) =>
      s.(seqCounter := s.seqCounter + 1, firstSeq := if s.firstSeq.None? then Some(tokens) else s.firstSeq,
         workers := s.workers[i := Storing], history := s.history + [tokens])
    case Return(i) =>
      s.(storedBytes := s.storedBytes + SeqBytes(c, s), sequences := s.sequences + 1,
         workers := s.workers[i := Waiting])
    case Exit(i) => s.(workers := s.workers[i := Exited])
    case Raise(i) => s.(state := Error, workers := s.workers[i := Failed])
    case Check =>
      var evicting := FirstEvicted(c, s);
      s.(evicting := evicting, attempts := s.attempts + 1,
         state := if s.firstSeq.None? || evicting || s.attempts + 1 >= EVICTION_CHECK_ATTEMPTS then Done else Running)
    case Cancel => s.(state := Cancelled, workers := StopAll(s.workers))
  }

  // ---------------------------------------------------------------- counting workers

  /** A store that has begun and has not been acknowledged. */
  predicate InStore(w: Worker) { w.Storing? || w.Failed? }

  function Busy(): Worker -> int { w => if InStore(w) then 1 else 0 }

  function BusyCount(workers: seq<Worker>): (n: nat)
    ensures n <= |workers|
  {
    CountRange(Busy(), workers);
    Sum(Busy(), workers)
  }

  lemma {:induction false} CountRange(f: Worker -> int, workers: seq<Worker>)
    requires forall w :: 0 <= f(w) <= 1
    ensures 0 <= Sum(f, workers) <= |workers|
  {
    if workers != [] { CountRange(f, workers[..|workers| - 1]); }
  }

  lemma BusyUpdate(workers: seq<Worker>, i: nat, w: Worker)
    requires i < |workers|
    ensures BusyCount(workers[i := w]) == BusyCount(workers) - Busy()(workers[i]) + Busy()(w)
  {
    SumUpdate(Busy(), workers, i, w);
  }

  lemma {:induction false} NoneBusy(workers: seq<Worker>)
    requires AllOf(workers, w => !InStore(w))
    ensures BusyCount(workers) == 0
  {
    if workers != [] { NoneBusy(workers[..|workers| - 1]); }
  }

  // ---------------------------------------------------------------- the invariant

  /** Which workers each state of the run allows. */
  ghost predicate WorkersFit(s: Controller)
  {
    && (s.state.Idle? ==> s.workers == [])
    && (s.state.Running? ==> AllOf(s.workers, w => Live(w) || w == Exited) && |s.workers| >= 1)
    && (s.state.Done? ==> AllOf(s.workers, Finished()) && |s.workers| >= 1)
    && (s.state.Cancelled? ==> AllOf(s.workers, Quiet()))
    && (forall i {:trigger s.workers[i]} | 0 <= i < |s.workers| && s.workers[i].Exited? :: s.storedBytes >= s.target)
  }

  predicate Tracked(s: Controller) { s.state.Running? || s.state.Done? || s.state.Error? }

  /** Progress is exact, and never promises more than one store a worker beyond the target. */
  ghost predicate BytesFit(sb: nat, s: Controller)
  {
    var n, busy := |s.workers|, BusyCount(s.workers);
    && s.target >= 0 && s.storedBytes == Offset(sb, s.sequences)
    && (Tracked(s) && s.target > 0 ==> s.storedBytes + Offset(sb, busy) < s.target + Offset(sb, n))
    && (Tracked(s) && s.target == 0 ==> s.sequences == 0 && busy == 0)
    && (s.state.Cancelled? && s.target > 0 ==> s.storedBytes < s.target + Offset(sb, n))
    && (s.state.Cancelled? && s.target == 0 ==> s.sequences == 0)
  }

  /** This run's stores are the tail of the history: one for each sequence counted and each store under way. */
  ghost predicate HistoryFits(cs: Pos, s: Controller)
  {
    && s.seqCounter == |s.history| && Generated(cs, s.history) && s.runStart <= |s.history|
    && (!s.state.Idle? ==> s.seqTokens >= cs && s.seqTokens >= 8 && Mod(s.seqTokens, cs) == 0)
    && (Tracked(s) ==> |s.history| == s.runStart + s.sequences + BusyCount(s.workers) && TailFits(s))
  }

  ghost predicate TailFits(s: Controller)
    requires s.runStart <= |s.history|
  {
    && (forall j: nat {:trigger s.history[j]} | s.runStart <= j < |s.history| :: |s.history[j]| == s.seqTokens)
    && s.firstSeq == if |s.history| == s.runStart then None else Some(s.history[s.runStart])
  }

  ghost predicate VerdictFits(c: Capacity, s: Controller)
  {
    && (s.state.Done? ==> s.evicting == FirstEvicted(c, s))
    && (s.state.Running? ==> s.attempts < EVICTION_CHECK_ATTEMPTS)
  }

  ghost predicate Inv(c: Capacity, s: Controller)
  {
    WorkersFit(s) && BytesFit(SeqBytes(c, s), s) && HistoryFits(c.ChunkSize(), s) && VerdictFits(c, s)
  }

  // ---------------------------------------------------------------- every step keeps it

  lemma StartKeeps(c: Capacity, s: Controller, p: Params)
    requires Inv(c, s) && Enabled(c, s, Start(p))
    ensures Inv(c, Apply(c, s, Start(p)))
  {
    var t := Apply(c, s, Start(p));
    TargetNonNegative(c, p);
    SeqTokensFit(c.ChunkSize(), p.seqTokens);
    NoneBusy(t.workers);
    OffsetMono(SeqBytes(c, t), 0, p.concurrency);
  }

  lemma BeginKeepsBytes(sb: nat, s: Controller, i: nat)
    requires BytesFit(sb, s) && WorkersFit(s) && i < |s.workers| && s.workers[i].Waiting? && s.storedBytes < s.target
    ensures BytesFit(sb, s.(workers := s.workers[i := Storing]))
  {
    var n, busy := |s.workers|, BusyCount(s.workers);
    BusyUpdate(s.workers, i, Storing);
    if busy + 1 < n { OffsetMono(sb, busy + 1, n); }
  }

  lemma BeginKeeps(c: Capacity, s: Controller, i: nat, tokens: seq<int>)
    requires Inv(c, s) && Enabled(c, s, Begin(i, tokens))
    ensures Inv(c, Apply(c, s, Begin(i, tokens)))
  {
    var t := Apply(c, s, Begin(i, tokens));
    BeginKeepsBytes(SeqBytes(c, s), s, i);
    BusyUpdate(s.workers, i, Storing);
    assert Tracked(s);
  }

  lemma ReturnKeeps(c: Capacity, s: Controller, i: nat)
    requires Inv(c, s) && Enabled(c, s, Return(i))
    ensures Inv(c, Apply(c, s, Return(i)))
  {
    BusyUpdate(s.workers, i, Waiting);
    assert Tracked(s);
  }

  lemma ExitKeeps(c: Capacity, s: Controller, i: nat)
    requires Inv(c, s) && Enabled(c, s, Exit(i))
    ensures Inv(c, Apply(c, s, Exit(i)))
  {
    BusyUpdate(s.workers, i, Exited);
    assert Tracked(s);
  }

  lemma RaiseKeeps(c: Capacity, s: Controller, i: nat)
    requires Inv(c, s) && Enabled(c, s, Raise(i))
    ensures Inv(c, Apply(c, s, Raise(i)))
  {
    BusyUpdate(s.workers, i, Failed);
    assert Tracked(s);
  }

  lemma CheckKeeps(c: Capacity, s: Controller)
    requires Inv(c, s) && Enabled(c, s, Check)
    ensures Inv(c, Apply(c, s, Check))
  {
  }

  lemma CancelKeeps(c: Capacity, s: Controller)
    requires Inv(c, s) && Enabled(c, s, Cancel)
    ensures Inv(c, Apply(c, s, Cancel))
  {
  }

  lemma StepKeeps(c: Capacity, s: Controller, e: Event)
    requires Inv(c, s) && Enabled(c, s, e)
    ensures Inv(c, Apply(c, s, e))
  {
    match e
    case Start(p) => StartKeeps(c, s, p);
    case Begin(i, tokens) => BeginKeeps(c, s, i, tokens);
    case Return(i) => ReturnKeeps(c, s, i);
    case Exit(i) => ExitKeeps(c, s, i);
    case Raise(i) => RaiseKeeps(c, s, i);
    case Check => CheckKeeps(c, s);
    case Cancel => CancelKeeps(c, s);
  }
}
