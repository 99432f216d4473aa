/** What holds over whole warmup runs: the overshoot bound, termination, the eviction verdict, uniqueness. */
module WarmupRuns {
  import opened Arith
  import opened FifoStack
  import opened PrefixSearch
  import opened Sums
  import opened Warmup
  import opened WarmupNonce

  ghost predicate Moves(c: Capacity, s: Controller, e: Event, t: Controller) { Enabled(c, s, e) && t == Apply(c, s, e) }

  /** Any interleaving of the workers with starts, failing stores, eviction checks and cancellation. */
  ghost predicate IsRun(c: Capacity, states: seq<Controller>, events: seq<Event>)
  {
    && |states| == |events| + 1
    && forall i {:trigger events[i]} | 0 <= i < |events| :: Moves(c, states[i], events[i], states[i + 1])
  }

  /** s is where some run from a fresh controller gets to. */
  ghost predicate Reached(c: Capacity, s: Controller)
  {
    exists states: seq<Controller>, events: seq<Event> :: RunTo(c, states, events, s)
  }

  ghost predicate RunTo(c: Capacity, states: seq<Controller>, events: seq<Event>, s: Controller)
  {
    IsRun(c, states, events) && states[0] == Initial() && states[|events|] == s
  }

  lemma {:induction false} RunKeeps(c: Capacity, states: seq<Controller>, events: seq<Event>)
    requires IsRun(c, states, events) && Inv(c, states[0])
    ensures Inv(c, states[|events|])
    decreases |events|
  {
    if events != [] {
      var n := |events| - 1;
      RunKeeps(c, states[..n + 1], events[..n]);
      assert Moves(c, states[n], events[n], states[n + 1]);
      StepKeeps(c, states[n], events[n]);
    }
  }

  lemma ReachedInv(c: Capacity, s: Controller)
    requires Reached(c, s)
    ensures Inv(c, s)
  {
    var states, events :| RunTo(c, states, events, s);
    NoneBusy([]);
    RunKeeps(c, states, events);
  }

  /** A reached state stays reached after a further step. */
  lemma ReachedStep(c: Capacity, s: Controller, e: Event)
    requires Reached(c, s) && Enabled(c, s, e)
    ensures Reached(c, Apply(c, s, e))
  {
    var states, events :| RunTo(c, states, events, s);
    var t := Apply(c, s, e);
    assert Moves(c, s, e, t);
    var states', events' := states + [t], events + [e];
    forall i {:trigger events'[i]} | 0 <= i < |events'|
      ensures Moves(c, states'[i], events'[i], states'[i + 1])
    {
      if i < |events| { assert Moves(c, states[i], events[i], states[i + 1]); }
    }
    assert RunTo(c, states', events', t);
  }

  lemma ReachedInitial(c: Capacity)
    ensures Reached(c, Initial())
  {
    var states: seq<Controller>, events: seq<Event> := [Initial()], [];
    assert RunTo(c, states, events, Initial());
  }

  // ---------------------------------------------------------------- the overshoot bound

  /** Stored bytes are always sequences * seq_bytes and never a whole round of workers past the target; once every
      worker has left its loop they have reached it. */
  lemma Overshoot(c: Capacity, s: Controller)
    requires Reached(c, s)
    ensures s.storedBytes == s.sequences * (s.seqTokens * c.bytesPerToken)
    ensures !s.state.Idle? && s.target > 0 ==> s.storedBytes < s.target + |s.workers| * (s.seqTokens * c.bytesPerToken)
    ensures !s.state.Idle? && s.target == 0 ==> s.storedBytes == 0
    ensures !s.state.Idle? && s.workers != [] && AllOf(s.workers, Finished()) ==> s.target <= s.storedBytes
    ensures s.state.Done? ==> s.target <= s.storedBytes
  {
    ReachedInv(c, s);
    var sb := SeqBytes(c, s);
    OffsetAgrees(c.bytesPerToken, s.seqTokens);
    OffsetAgrees(sb, s.sequences);
    OffsetAgrees(sb, |s.workers|);
    if s.workers != [] && AllOf(s.workers, Finished()) { assert s.workers[0].Exited?; }
  }

  // ---------------------------------------------------------------- termination

  function StoringWeight(): Worker -> int { w => if w == Storing then 1 else 0 }

  function WaitingWeight(): Worker -> int { w => if w == Waiting then 1 else 0 }

  /** The bytes a run may still begin to store. */
  function Room(c: Capacity, s: Controller): int
  {
    if s.target == 0 then 0
    else s.target + Offset(SeqBytes(c, s), |s.workers|) - s.storedBytes - Offset(SeqBytes(c, s), BusyCount(s.workers))
  }

  function Measure(c: Capacity, s: Controller): int
  {
    if !s.state.Running? && !s.state.Error? then 0
    else 3 * Room(c, s) + 2 * Sum(StoringWeight(), s.workers) + Sum(WaitingWeight(), s.workers)
         + if s.state.Running? then EVICTION_CHECK_ATTEMPTS - s.attempts else 0
  }

  lemma MeasureNonNegative(c: Capacity, s: Controller)
    requires Inv(c, s)
    ensures Measure(c, s) >= 0 && (s.state.Running? ==> Measure(c, s) >= 1)
  {
    CountRange(StoringWeight(), s.workers);
    CountRange(WaitingWeight(), s.workers);
  }

  lemma WorkerMoves(s: Controller, i: nat, w: Worker)
    requires i < |s.workers|
    ensures BusyCount(s.workers[i := w]) == BusyCount(s.workers) - Busy()(s.workers[i]) + Busy()(w)
    ensures Sum(StoringWeight(), s.workers[i := w])
         == Sum(StoringWeight(), s.workers) - StoringWeight()(s.workers[i]) + StoringWeight()(w)
    ensures Sum(WaitingWeight(), s.workers[i := w])
         == Sum(WaitingWeight(), s.workers) - WaitingWeight()(s.workers[i]) + WaitingWeight()(w)
  {
    BusyUpdate(s.workers, i, w);
    SumUpdate(StoringWeight(), s.workers, i, w);
    SumUpdate(WaitingWeight(), s.workers, i, w);
  }

  /** A run that can only begin so many stores: its sequences have bytes, or it has nothing to store. */
  predicate Limited(c: Capacity, s: Controller) { SeqBytes(c, s) > 0 || s.target == 0 }

  lemma BeginProgress(c: Capacity, s: Controller, i: nat, tokens: seq<int>)
    requires Inv(c, s) && Enabled(c, s, Begin(i, tokens)) && Limited(c, s)
    ensures Measure(c, Apply(c, s, Begin(i, tokens))) < Measure(c, s)
  {
    assert Tracked(s);
    WorkerMoves(s, i, Storing);
  }

  lemma ReturnProgress(c: Capacity, s: Controller, i: nat)
    requires Inv(c, s) && Enabled(c, s, Return(i))
    ensures Measure(c, Apply(c, s, Return(i))) < Measure(c, s)
  {
    assert Tracked(s);
    WorkerMoves(s, i, Waiting);
  }

  lemma LeaveProgress(c: Capacity, s: Controller, e: Event)
    requires Inv(c, s) && Enabled(c, s, e) && (e.Exit? || e.Raise?)
    ensures Measure(c, Apply(c, s, e)) < Measure(c, s)
  {
    assert Tracked(s);
    WorkerMoves(s, e.i, if e.Exit? then Exited else Failed);
  }

  /** Then every step of a started run uses up some of the measure. */
  lemma StepProgress(c: Capacity, s: Controller, e: Event)
    requires Inv(c, s) && Enabled(c, s, e) && Limited(c, s) && !e.Start?
    ensures Measure(c, Apply(c, s, e)) < Measure(c, s)
  {
    MeasureNonNegative(c, s);
    match e
    case Begin(i, tokens) => BeginProgress(c, s, i, tokens);
    case Return(i) => ReturnProgress(c, s, i);
    case Exit(_) => LeaveProgress(c, s, e);
    case Raise(_) => LeaveProgress(c, s, e);
    case Check =>
    case Cancel =>
  }

  /** A run that is not restarted takes at most Measure steps. */
  lemma {:induction false} RunLength(c: Capacity, states: seq<Controller>, events: seq<Event>)
    requires IsRun(c, states, events) && Inv(c, states[0]) && Limited(c, states[0])
    requires forall i | 0 <= i < |events| :: !events[i].Start?
    ensures Inv(c, states[|events|]) && Limited(c, states[|events|])
    ensures |events| + Measure(c, states[|events|]) <= Measure(c, states[0])
    decreases |events|
  {
    if events != [] {
      var n := |events| - 1;
      RunLength(c, states[..n + 1], events[..n]);
      assert Moves(c, states[n], events[n], states[n + 1]);
      StepProgress(c, states[n], events[n]);
      StepKeeps(c, states[n], events[n]);
    }
  }

  lemma {:induction false} AllWaiting(n: nat)
    ensures var ws := seq(n, _ => Waiting);
      Sum(StoringWeight(), ws) == 0 && Sum(WaitingWeight(), ws) == n && BusyCount(ws) == 0
  {
    if n > 0 {
      AllWaiting(n - 1);
      var ws := seq(n, _ => Waiting);
      assert ws[..n - 1] == seq(n - 1, _ => Waiting);
    }
  }

  /** A started run is over after at most 3 * (target + concurrency * seq_bytes) + concurrency + 5 further steps,
      however its workers interleave, if tokens have bytes or the target is zero. */
  lemma StartedRunEnds(c: Capacity, s: Controller, p: Params, states: seq<Controller>, events: seq<Event>)
    requires Reached(c, s) && Enabled(c, s, Start(p)) && (c.bytesPerToken > 0 || TargetBytes(c, p).value == 0)
    requires IsRun(c, states, events) && states[0] == Apply(c, s, Start(p))
    requires forall i | 0 <= i < |events| :: !events[i].Start?
    ensures var seqBytes := states[0].seqTokens * c.bytesPerToken;
      |events| <= 3 * (states[0].target + p.concurrency * seqBytes) + p.concurrency + 5
  {
    ReachedInv(c, s);
    StartKeeps(c, s, p);
    var t := states[0];
    var sb := SeqBytes(c, t);
    OffsetMono(c.bytesPerToken, 0, t.seqTokens);
    RunLength(c, states, events);
    MeasureNonNegative(c, states[|events|]);
    AllWaiting(p.concurrency);
    assert t.workers == seq(p.concurrency, _ => Waiting);
    OffsetAgrees(c.bytesPerToken, t.seqTokens);
    OffsetAgrees(sb, p.concurrency);
  }

  /** Until it is over, a run can take a step that is neither a failure nor a cancellation. */
  lemma Progress(c: Capacity, s: Controller) returns (e: Event)
    requires Reached(c, s) && s.state.Running?
    ensures Enabled(c, s, e) && (e.Begin? || e.Return? || e.Exit? || e.Check?)
  {
    ReachedInv(c, s);
    if AllOf(s.workers, Finished()) { return Check; }
    var i :| 0 <= i < |s.workers| && !s.workers[i].Exited?;
    if s.workers[i].Storing? { return Return(i); }
    if s.storedBytes >= s.target { return Exit(i); }
    return Begin(i, seq(s.seqTokens, k => if 0 <= k < 8 then NonceByte(s.seqCounter + 1, k) else 0));
  }

  /** A failed run stays failed, and a cancelled one cancelled, until the next start. */
  lemma {:induction false} EndsStay(c: Capacity, states: seq<Controller>, events: seq<Event>)
    requires IsRun(c, states, events) && forall i | 0 <= i < |events| :: !events[i].Start?
    ensures states[0].state.Error? ==> states[|events|].state.Error?
    ensures states[0].state.Cancelled? && AllOf(states[0].workers, Quiet()) ==> states[|events|] == states[0]
    decreases |events|
  {
    if events != [] {
      var n := |events| - 1;
      EndsStay(c, states[..n + 1], events[..n]);
      assert Moves(c, states[n], events[n], states[n + 1]);
    }
  }

  /** A store that raises fails the run, and only a failing store does. */
  lemma FailsIff(c: Capacity, s: Controller, e: Event)
    requires Reached(c, s) && Enabled(c, s, e) && !s.state.Error?
    ensures Apply(c, s, e).state.Error? <==> e.Raise?
  {
    ReachedInv(c, s);
  }

  /** With a stack that reports 0 bytes a token, a run with a positive target never finishes by itself. */
  lemma WeightlessNeverFinishes(c: Capacity, s: Controller)
    requires Reached(c, s) && s.target > 0 && c.bytesPerToken == 0
    ensures !s.state.Done? && !Enabled(c, s, Check) && forall i: nat :: !Enabled(c, s, Exit(i))
  {
    ReachedInv(c, s);
    Overshoot(c, s);
  }

  /** No run from t that is not restarted takes more than this many steps. */
  ghost predicate EndsWithin(c: Capacity, t: Controller, bound: nat)
  {
    forall states: seq<Controller>, events: seq<Event> | RunsFrom(c, t, states, events) :: |events| <= bound
  }

  ghost predicate RunsFrom(c: Capacity, t: Controller, states: seq<Controller>, events: seq<Event>)
  {
    IsRun(c, states, events) && states[0] == t && forall i | 0 <= i < |events| :: !events[i].Start?
  }

  /** Without bytes the first worker's store brings the target no nearer, and it starts over. */
  lemma {:induction false} Forever(c: Capacity, t: Controller, n: nat)
    returns (states: seq<Controller>, events: seq<Event>)
    requires Inv(c, t) && t.state.Running? && c.bytesPerToken == 0 && t.storedBytes < t.target
    requires t.workers[0].Waiting?
    ensures RunsFrom(c, t, states, events) && |events| == 2 * n
    ensures var u := states[|events|];
      Inv(c, u) && u.state.Running? && u.storedBytes < u.target && u.workers[0].Waiting?
  {
    if n == 0 { return [t], []; }
    states, events := Forever(c, t, n - 1);
    var u := states[|events|];
    var begin: Event := Begin(0, seq(u.seqTokens, k => if 0 <= k < 8 then NonceByte(u.seqCounter + 1, k) else 0));
    var v := Apply(c, u, begin);
    var w := Apply(c, v, Return(0));
    BeginKeeps(c, u, 0, begin.tokens);
    ReturnKeeps(c, v, 0);
    OffsetAgrees(0, u.seqTokens);
    states, events := RunsOn(c, t, states, events, begin);
    states, events := RunsOn(c, t, states, events, Return(0));
  }

  lemma RunsOn(c: Capacity, t: Controller, states: seq<Controller>, events: seq<Event>, e: Event)
    returns (states': seq<Controller>, events': seq<Event>)
    requires RunsFrom(c, t, states, events) && Enabled(c, states[|events|], e) && !e.Start?
    ensures RunsFrom(c, t, states', events') && events' == events + [e]
    ensures states'[|events'|] == Apply(c, states[|events|], e)
  {
    var u := Apply(c, states[|events|], e);
    assert Moves(c, states[|events|], e, u);
    states', events' := states + [u], events + [e];
    forall i {:trigger events'[i]} | 0 <= i < |events'|
      ensures Moves(c, states'[i], events'[i], states'[i + 1])
    {
      if i < |events| { assert Moves(c, states[i], events[i], states[i + 1]); }
    }
  }

  lemma NothingEndsForever(c: Capacity, s: Controller, p: Params, bound: nat)
    requires Reached(c, s) && Enabled(c, s, Start(p)) && c.bytesPerToken == 0 && TargetBytes(c, p).value > 0
    ensures !EndsWithin(c, Apply(c, s, Start(p)), bound)
  {
    ReachedInv(c, s);
    StartKeeps(c, s, p);
    var states, events := Forever(c, Apply(c, s, Start(p)), bound + 1);
  }

  function StepBound(target: nat, concurrency: nat, seqBytes: nat): nat
  {
    3 * (target + concurrency * seqBytes) + concurrency + 5
  }

  lemma StepBoundIs(target: nat, concurrency: nat, seqBytes: nat)
    ensures StepBound(target, concurrency, seqBytes) == 3 * (target + concurrency * seqBytes) + concurrency + 5
  {
  }

  lemma EndsInTime(c: Capacity, s: Controller, p: Params)
    requires Reached(c, s) && Enabled(c, s, Start(p))
    requires c.bytesPerToken > 0 || TargetBytes(c, p).value == 0
    ensures exists bound :: EndsWithin(c, Apply(c, s, Start(p)), bound)
  {
    var t := Apply(c, s, Start(p));
    TargetNonNegative(c, p);
    var bound := StepBound(t.target, p.concurrency, t.seqTokens * c.bytesPerToken);
    hide Enabled, Reached, Apply, TargetBytes, IsRun, StepBound;
    forall states: seq<Controller>, events: seq<Event> | RunsFrom(c, t, states, events)
      ensures |events| <= bound
    {
      StartedRunEnds(c, s, p, states, events);
      StepBoundIs(t.target, p.concurrency, t.seqTokens * c.bytesPerToken);
    }
    assert EndsWithin(c, t, bound);
  }

  /** The runs started with these parameters all end, and within one bound, exactly when tokens have bytes or the target
      rounds to zero. */
  lemma EndsIff(c: Capacity, s: Controller, p: Params)
    requires Reached(c, s) && Enabled(c, s, Start(p))
    ensures (exists bound :: EndsWithin(c, Apply(c, s, Start(p)), bound))
       <==> c.bytesPerToken > 0 || TargetBytes(c, p).value == 0
  {
    TargetNonNegative(c, p);
    if c.bytesPerToken > 0 || TargetBytes(c, p).value == 0 {
      EndsInTime(c, s, p);
    } else {
      forall bound: nat
        ensures !EndsWithin(c, Apply(c, s, Start(p)), bound)
      {
        NothingEndsForever(c, s, p, bound);
      }
    }
  }

  // ---------------------------------------------------------------- the eviction verdict

  lemma {:induction false} UniformSum(bytesPerToken: nat, xs: seq<seq<int>>, len: nat)
    requires forall j {:trigger xs[j]} | 0 <= j < |xs| :: |xs[j]| == len
    ensures Sum(Weight(bytesPerToken), xs) == Offset(Offset(bytesPerToken, len), |xs|)
  {
    if xs != [] { UniformSum(bytesPerToken, xs[..|xs| - 1], len); }
  }

  /** Whole generated sequences differ while the counter fits its eight bytes. */
  lemma GeneratedOnce(cs: Pos, history: seq<seq<int>>, i: nat, j: nat)
    requires Generated(cs, history) && |history| <= Pow256(8) && i < |history| && j < |history|
    ensures history[i] == history[j] <==> i == j
  {
    if history[i] == history[j] {
      forall k: nat {:trigger NonceByte(i + 1, k)} | k < 8
        ensures NonceByte(i + 1, k) == NonceByte(j + 1, k)
      {
        assert history[i][k] == history[j][k];
      }
      SameEightBytes(i + 1, j + 1);
    }
  }

  lemma SameEightBytes(n: nat, m: nat)
    requires SameBytes(n, m, 8) && 1 <= n <= Pow256(8) && 1 <= m <= Pow256(8)
    ensures n == m
  {
    SameBytesIff(n, m, 8);
    PeriodDistinct(n, m, Pow256(8));
  }

  /** A store of this run is gone from the cache exactly when the bytes stored since, its own included, overflow it. */
  lemma GoneIff(c: Capacity, history: seq<seq<int>>, p: nat)
    requires Generated(c.ChunkSize(), history) && |history| <= Pow256(8) && p < |history|
    ensures history[p] !in Cached(c, history) <==> Sum(Weight(c.bytesPerToken), history[p..]) > c.totalBytes
  {
    var w: seq<int> -> int := Weight(c.bytesPerToken);
    var k := Evicted(w, c.totalBytes, history);
    RetainedIff(w, c.totalBytes, history, p);
    if history[p] in history[k..] {
      var j :| k <= j < |history| && history[j] == history[p];
      GeneratedOnce(c.ChunkSize(), history, p, j);
    }
    if p >= k { assert history[k..][p - k] == history[p]; }
  }

  /** A finished warmup reports evicting exactly when what it stored does not fit the stack, whatever earlier runs
      left there, while the sequence counter fits its eight bytes. */
  lemma VerdictIsExact(c: Capacity, s: Controller)
    requires Reached(c, s) && s.state.Done? && s.seqCounter <= Pow256(8)
    ensures s.evicting <==> s.sequences * (s.seqTokens * c.bytesPerToken) > c.totalBytes
  {
    ReachedInv(c, s);
    Overshoot(c, s);
    NoneBusy(s.workers);
    assert |s.history| == s.runStart + s.sequences;
    if s.sequences > 0 {
      GoneIff(c, s.history, s.runStart);
      UniformSum(c.bytesPerToken, s.history[s.runStart..], s.seqTokens);
    }
  }

  /** A target above the capacity always ends in eviction. */
  lemma TargetAboveCapacityEvicts(c: Capacity, s: Controller)
    requires Reached(c, s) && s.state.Done? && s.seqCounter <= Pow256(8) && s.target > c.totalBytes
    ensures s.evicting
  {
    Overshoot(c, s);
    VerdictIsExact(c, s);
  }

  // ---------------------------------------------------------------- uniqueness

  /** Up to 256^min(chunk_size, 8) sequences, each store adds exactly seq_tokens / chunk_size prefixes to
      a prefix stack, over all runs of one controller. */
  lemma EachStoreIsNew(c: Capacity, s: Controller, i: nat, tokens: seq<int>)
    requires Reached(c, s) && Enabled(c, s, Begin(i, tokens)) && s.seqCounter + 1 <= Pow256(Min(c.ChunkSize(), 8))
    ensures var cs := c.ChunkSize();
      && |PrefixesAfter(cs, Apply(c, s, Begin(i, tokens)).history)| == |PrefixesAfter(cs, s.history)| + s.seqTokens / cs
      && |PrefixesAfter(cs, s.history)| == Sum(ChunksIn(cs), s.history)
  {
    ReachedInv(c, s);
    BeginKeeps(c, s, i, tokens);
    var cs := c.ChunkSize();
    NeverDeduplicates(cs, s.history);
    NeverDeduplicates(cs, s.history + [tokens]);
    SumAppend(ChunksIn(cs), s.history, tokens);
    DivModAgree(s.seqTokens, cs);
  }

  /** With chunks of at most 8 tokens that is the exact bound, in every state a controller reaches. */
  lemma StoreIsNewExactly(c: Capacity, s: Controller, i: nat, tokens: seq<int>)
    requires Reached(c, s) && Enabled(c, s, Begin(i, tokens)) && c.ChunkSize() <= 8
    ensures var cs := c.ChunkSize();
      |PrefixesAfter(cs, Apply(c, s, Begin(i, tokens)).history)| == |PrefixesAfter(cs, s.history)| + s.seqTokens / cs
      <==> s.seqCounter + 1 <= Pow256(cs)
  {
    ReachedInv(c, s);
    BeginKeeps(c, s, i, tokens);
    var longer := s.history + [tokens];
    assert longer[..|s.history|] == s.history;
    StoreIsNewIff(c.ChunkSize(), longer);
    DivModAgree(s.seqTokens, c.ChunkSize());
  }
}
