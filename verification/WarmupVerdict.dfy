/** When a warmup is sure to end in eviction, told before it starts (src/kvbench/servers/warmup.py). */
module WarmupVerdict {
  import opened Wrappers
  import opened Arith
  import opened FifoStack
  import opened Warmup
  import opened WarmupNonce
  import opened WarmupRuns

  /** `seq_bytes` of a run with these parameters. */
  function RunSeqBytes(c: Capacity, p: Params): (sb: nat)
    ensures sb == SeqTokens(c.ChunkSize(), p.seqTokens) * c.bytesPerToken
  {
    OffsetAgrees(c.bytesPerToken, SeqTokens(c.ChunkSize(), p.seqTokens));
    Offset(c.bytesPerToken, SeqTokens(c.ChunkSize(), p.seqTokens))
  }

  /** s ends a run with these parameters, from any point of a controller's life, before its counter wraps. */
  ghost predicate FinishedRun(c: Capacity, p: Params, s: Controller)
  {
    && Reached(c, s) && s.state.Done? && s.seqCounter <= Pow256(8)
    && TargetBytes(c, p) == Some(s.target) && s.seqTokens == SeqTokens(c.ChunkSize(), p.seqTokens)
    && |s.workers| == p.concurrency
  }

  /** The whole sequences it takes to reach the target. */
  function Needed(c: Capacity, p: Params): (n: nat)
    requires p.Valid() && TargetBytes(c, p).Some? && RunSeqBytes(c, p) > 0
    ensures n == (TargetBytes(c, p).value + RunSeqBytes(c, p) - 1) / RunSeqBytes(c, p)
  {
    TargetNonNegative(c, p);
    DivModAgree(TargetBytes(c, p).value + RunSeqBytes(c, p) - 1, RunSeqBytes(c, p));
    CeilDiv(TargetBytes(c, p).value, RunSeqBytes(c, p))
  }

  // ---------------------------------------------------------------- a run that stores no more than it must

  /** The first worker stores sequences until the target is reached. */
  lemma {:induction false} StoreAlone(c: Capacity, s: Controller) returns (t: Controller)
    requires Reached(c, s) && s.state.Running? && SeqBytes(c, s) > 0 && s.workers != [] && s.workers[0].Waiting?
    requires s.storedBytes == 0 || s.storedBytes < s.target + SeqBytes(c, s)
    ensures Reached(c, t) && t.storedBytes >= t.target
    ensures t.storedBytes == 0 || t.storedBytes < t.target + SeqBytes(c, t)
    ensures t.state == s.state && t.target == s.target && t.seqTokens == s.seqTokens && t.workers == s.workers
    ensures t.runStart == s.runStart
    decreases Max(0, s.target - s.storedBytes)
  {
    if s.storedBytes >= s.target { return s; }
    var u := StoreOnce(c, s);
    t := StoreAlone(c, u);
  }

  lemma StoreOnce(c: Capacity, s: Controller) returns (t: Controller)
    requires Reached(c, s) && s.state.Running? && s.workers != [] && s.workers[0].Waiting? && s.storedBytes < s.target
    ensures Reached(c, t) && t.storedBytes == s.storedBytes + SeqBytes(c, s)
    ensures t.state == s.state && t.target == s.target && t.seqTokens == s.seqTokens && t.workers == s.workers
    ensures t.runStart == s.runStart
  {
    RunningHasRoom(c, s);
    var tokens := seq(s.seqTokens, k => if 0 <= k < 8 then NonceByte(s.seqCounter + 1, k) else 0);
    var begin: Event := Begin(0, tokens);
    ReachedStep(c, s, begin);
    var u := Apply(c, s, begin);
    ReachedStep(c, u, Return(0));
    t := Apply(c, u, Return(0));
    assert t.workers == s.workers;
  }

  lemma RunningHasRoom(c: Capacity, s: Controller)
    requires Reached(c, s) && s.state.Running?
    ensures s.seqTokens >= 8
  {
    ReachedInv(c, s);
  }

  /** The workers from k on leave their loops. */
  lemma {:induction false} LeaveAll(c: Capacity, s: Controller, k: nat) returns (t: Controller)
    requires Reached(c, s) && s.state.Running? && s.storedBytes >= s.target && k <= |s.workers|
    requires forall i {:trigger s.workers[i]} | 0 <= i < |s.workers| ::
      s.workers[i] == if i < k then Exited else Waiting
    ensures Reached(c, t) && t == s.(workers := t.workers) && |t.workers| == |s.workers| && AllOf(t.workers, Finished())
    decreases |s.workers| - k
  {
    if k == |s.workers| { return s; }
    ReachedStep(c, s, Exit(k));
    t := LeaveAll(c, Apply(c, s, Exit(k)), k + 1);
  }

  /** The eviction check, attempt after attempt. */
  lemma {:induction false} CheckToEnd(c: Capacity, s: Controller) returns (t: Controller)
    requires Reached(c, s) && s.state.Running? && AllOf(s.workers, Finished())
    ensures Reached(c, t) && t.state.Done?
    ensures t == s.(state := t.state, evicting := t.evicting, attempts := t.attempts)
    decreases EVICTION_CHECK_ATTEMPTS - s.attempts
  {
    ReachedStep(c, s, Check);
    t := Apply(c, s, Check);
    if t.state.Running? { t := CheckToEnd(c, t); }
  }

  lemma DoneStored(c: Capacity, s: Controller)
    requires Reached(c, s) && s.state.Done?
    ensures s.storedBytes == Offset(SeqBytes(c, s), s.sequences) && s.target <= s.storedBytes
    ensures s.seqCounter == |s.history| == s.runStart + s.sequences
  {
    ReachedInv(c, s);
    NoneBusy(s.workers);
    assert s.workers[0].Exited?;
  }

  /** A first run whose store calls never overlap stores exactly the sequences it needs. */
  lemma FrugalRun(c: Capacity, p: Params) returns (s: Controller)
    requires p.Valid() && TargetBytes(c, p).Some? && RunSeqBytes(c, p) > 0
    ensures Reached(c, s) && s.state.Done? && s.seqCounter == s.sequences == Needed(c, p)
    ensures TargetBytes(c, p) == Some(s.target) && s.seqTokens == SeqTokens(c.ChunkSize(), p.seqTokens)
    ensures |s.workers| == p.concurrency
  {
    ReachedInitial(c);
    TargetNonNegative(c, p);
    var start: Event := Start(p);
    ReachedStep(c, Initial(), start);
    var a := StoreAlone(c, Apply(c, Initial(), start));
    var b := LeaveAll(c, a, 0);
    s := CheckToEnd(c, b);
    DoneStored(c, s);
    CeilUnique(s.target, RunSeqBytes(c, p), s.sequences);
  }

  /** A run's first sequence is still cached when all its stores together fit. */
  lemma FirstStaysCached(bytesPerToken: nat, capacity: nat, xs: seq<seq<int>>, p: nat, len: nat)
    requires p < |xs| && forall j {:trigger xs[j]} | p <= j < |xs| :: |xs[j]| == len
    requires Offset(Offset(bytesPerToken, len), |xs| - p) <= capacity
    ensures xs[p] in xs[Evicted(Weight(bytesPerToken), capacity, xs)..]
  {
    var w: seq<int> -> int := Weight(bytesPerToken);
    UniformSum(bytesPerToken, xs[p..], len);
    RetainedIff(w, capacity, xs, p);
    var k := Evicted(w, capacity, xs);
    assert xs[k..][p - k] == xs[p];
  }

  /** Whatever the counter, a run whose stores all fit is not evicting. */
  lemma FittingRunKeeps(c: Capacity, s: Controller)
    requires Reached(c, s) && s.state.Done? && s.storedBytes <= c.totalBytes
    ensures !s.evicting
  {
    ReachedInv(c, s);
    DoneStored(c, s);
    if s.sequences > 0 {
      FirstStaysCached(c.bytesPerToken, c.totalBytes, s.history, s.runStart, s.seqTokens);
    }
  }

  // ---------------------------------------------------------------- the exact condition

  /** Even the fewest stores that reach the target overflow the stack, or they are too many for the counter. */
  predicate SurelyEvicts(c: Capacity, p: Params)
    requires p.Valid() && TargetBytes(c, p).Some? && RunSeqBytes(c, p) > 0
  {
    Needed(c, p) * RunSeqBytes(c, p) > c.totalBytes || Needed(c, p) > Pow256(8)
  }

  lemma FinishedNeeds(c: Capacity, p: Params, s: Controller)
    requires p.Valid() && TargetBytes(c, p).Some? && RunSeqBytes(c, p) > 0 && FinishedRun(c, p, s)
    ensures Needed(c, p) <= s.sequences <= Pow256(8)
    ensures s.storedBytes >= Needed(c, p) * RunSeqBytes(c, p)
  {
    DoneStored(c, s);
    var sb, n := RunSeqBytes(c, p), Needed(c, p);
    CeilReaches(s.target, sb, s.sequences);
    if n < s.sequences { OffsetMono(sb, n, s.sequences); }
    OffsetAgrees(sb, n);
  }

  /** Told from the parameters alone: every finished run ends in eviction, however its workers interleave and whatever
      ran before, exactly when the fewest whole sequences that reach the target overflow the stack. */
  lemma EveryRunEvictsIff(c: Capacity, p: Params)
    requires p.Valid() && TargetBytes(c, p).Some? && RunSeqBytes(c, p) > 0
    ensures (forall s | FinishedRun(c, p, s) :: s.evicting) <==> SurelyEvicts(c, p)
  {
    if SurelyEvicts(c, p) {
      forall s | FinishedRun(c, p, s)
        ensures s.evicting
      {
        FinishedNeeds(c, p, s);
        Overshoot(c, s);
        VerdictIsExact(c, s);
      }
    } else {
      var s := FrugalRun(c, p);
      DoneStored(c, s);
      OffsetAgrees(RunSeqBytes(c, p), Needed(c, p));
      FittingRunKeeps(c, s);
      assert FinishedRun(c, p, s) && !s.evicting;
    }
  }

  lemma CeilOverflows(target: nat, sb: Pos, total: nat)
    requires target >= total
    ensures CeilDiv(target, sb) * sb > total <==> target > total || total % sb != 0
  {
    var q := CeilDiv(target, sb);
    OffsetAgrees(sb, q);
    CeilReaches(target, sb, q);
    DivMod(total, sb);
    DivModAgree(total, sb);
    if target == total && total % sb == 0 { CeilUnique(total, sb, Div(total, sb)); }
    if target == total && q * sb == total { OffsetDivMod(sb, q, 0); }
  }

  /** A fill factor of at least 1 is sure to end in eviction exactly when it exceeds 1 by a byte of capacity, or the
      capacity is not a whole number of sequences. */
  lemma FillFactorEvictsIff(c: Capacity, p: Params)
    requires p.Valid() && p.targetGb.None? && p.fillFactor >= 1.0 && c.totalBytes > 0 && RunSeqBytes(c, p) > 0
    ensures (forall s | FinishedRun(c, p, s) :: s.evicting)
       <==> (|| c.totalBytes as real * p.fillFactor >= c.totalBytes as real + 1.0
             || c.totalBytes % RunSeqBytes(c, p) != 0 || Needed(c, p) > Pow256(8))
  {
    DerivedTarget(c, p);
    EveryRunEvictsIff(c, p);
    CeilOverflows(TargetBytes(c, p).value, RunSeqBytes(c, p), c.totalBytes);
  }

  /** A derived target is rounded down: it passes the capacity once the product does so by a byte. */
  lemma DerivedTarget(c: Capacity, p: Params)
    requires p.targetGb.None? && p.fillFactor >= 1.0 && c.totalBytes > 0
    ensures TargetBytes(c, p).Some? && TargetBytes(c, p).value >= c.totalBytes
    ensures TargetBytes(c, p).value > c.totalBytes
       <==> c.totalBytes as real * p.fillFactor >= c.totalBytes as real + 1.0
  {
    AtLeastItself(c.totalBytes as real, p.fillFactor);
    FloorPasses(c.totalBytes as real * p.fillFactor, c.totalBytes);
  }

  lemma FloorPasses(x: real, n: nat)
    requires x >= n as real
    ensures x.Floor >= n && (x.Floor > n <==> x >= n as real + 1.0)
  {
  }

  lemma AtLeastItself(x: real, f: real)
    requires x >= 0.0 && f >= 1.0
    ensures x * f >= x
  {
  }

  /** A fill factor above 1 that fails: one gibibyte, four sequences of a quarter, a factor of 1 + 10^-10. */
  lemma FillFactorCanMiss() returns (s: Controller)
    ensures var c, p := Capacity(256, 131072, 1073741824), Params(None, 1.0000000001, 2048, 4);
      && p.Valid() && p.fillFactor > 1.0 && FinishedRun(c, p, s)
      && s.target == s.storedBytes == c.totalBytes && s.sequences == 4 && !s.evicting
  {
    var c, p := Capacity(256, 131072, 1073741824), Params(None, 1.0000000001, 2048, 4);
    DivModAgree(2048, 256);
    OffsetAgrees(131072, 2048);
    assert RunSeqBytes(c, p) == 268435456;
    OffsetAgrees(268435456, 4);
    CeilUnique(1073741824, 268435456, 4);
    s := FrugalRun(c, p);
    DoneStored(c, s);
    FittingRunKeeps(c, s);
  }

  // ---------------------------------------------------------------- targets in gibibytes

  lemma GibibyteTarget(c: Capacity, p: Params, k: nat)
    requires p.targetGb == Some(k as real)
    ensures TargetBytes(c, p) == Some(k * 1073741824)
  {
    TargetBytesIs(c, p);
    Exactly(k as real * 1024.0 * 1024.0 * 1024.0, k * 1073741824, TargetBytes(c, p).value);
  }

  lemma Exactly(x: real, n: int, m: int)
    requires x == n as real && RoundsDown(m, x)
    ensures m == n
  {
  }

  /** A finished run with a target of k gibibytes has stored at least that much. */
  lemma GibibytesStored(c: Capacity, p: Params, k: nat, s: Controller)
    requires p.Valid() && p.targetGb == Some(k as real) && FinishedRun(c, p, s)
    ensures s.storedBytes >= k * 1073741824
  {
    GibibyteTarget(c, p, k);
    DoneStored(c, s);
  }

  /** With sequences of 2^20 bytes, a run whose stores do not overlap stores exactly that much. */
  lemma GibibytesExactly(c: Capacity, p: Params, k: nat) returns (s: Controller)
    requires p.Valid() && p.targetGb == Some(k as real) && RunSeqBytes(c, p) == 1048576
    ensures Reached(c, s) && s.state.Done? && s.sequences == k * 1024 && s.storedBytes == k * 1073741824
  {
    GibibyteTarget(c, p, k);
    s := FrugalRun(c, p);
    DoneStored(c, s);
    OffsetAgrees(1048576, k * 1024);
    CeilUnique(k * 1073741824, 1048576, k * 1024);
  }
}
