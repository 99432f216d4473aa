/** The warmup controller itself, updating its status in place (src/kvbench/servers/warmup.py).

A worker's loop is cut at its await: `WorkerBegin` runs from the loop guard to the store call, `WorkerReturn` from
the acknowledged store back to the guard.  Every method is one step, or several, of the Warmup machine. */
module WarmupControllers {
  import opened Wrappers
  import opened Arith
  import opened FifoStack
  import opened Warmup
  import opened WarmupNonce
  import opened WarmupRuns
  import opened WarmupVerdict

  datatype StartError = AlreadyRunning | NoTarget

  lemma WorkersHaveTokens(c: Capacity, s: Controller)
    requires Reached(c, s) && s.workers != []
    ensures s.seqTokens >= 8 && (s.state.Running? ==> s.attempts < EVICTION_CHECK_ATTEMPTS)
  {
    ReachedInv(c, s);
  }

  lemma FirstHasTokens(c: Capacity, s: Controller)
    requires Reached(c, s) && s.state.Running? && s.firstSeq.Some?
    ensures |s.firstSeq.value| > 0
  {
    ReachedInv(c, s);
    assert s.firstSeq.value == s.history[s.runStart];
  }

  lemma RunningHasWorkers(c: Capacity, s: Controller)
    requires Reached(c, s) && s.state.Running?
    ensures s.workers != []
  {
    ReachedInv(c, s);
  }

  /** Less than one sequence past the target leaves only one possible number of stored bytes. */
  lemma AloneStored(c: Capacity, s: Controller)
    requires Reached(c, s) && s.state.Done? && c.bytesPerToken > 0
    requires s.storedBytes == 0 || s.storedBytes < s.target + s.seqTokens * c.bytesPerToken
    ensures var sb := s.seqTokens * c.bytesPerToken;
      sb > 0 && s.target >= 0 && s.storedBytes == CeilDiv(s.target, sb) * sb
  {
    ReachedInv(c, s);
    DoneStored(c, s);
    OffsetAgrees(c.bytesPerToken, s.seqTokens);
    OffsetMono(c.bytesPerToken, 0, s.seqTokens);
    CeilUnique(s.target, SeqBytes(c, s), s.sequences);
    OffsetAgrees(SeqBytes(c, s), s.sequences);
  }

  class WarmupController {
    const capacity: Capacity
    const kv: FifoKVStack<int>
    var state: RunState
    var target: int
    var storedBytes: int
    var sequences: nat
    var evicting: bool
    var seqTokens: nat
    var firstSeq: Option<seq<int>>
    var seqCounter: nat
    var attempts: nat
    var concurrency: nat
    ghost var workers: seq<Worker>
    ghost var runStart: nat

    constructor (capacity: Capacity)
      ensures this.capacity == capacity && fresh(kv)
      ensures Valid() && View() == Initial()
      ensures state == Idle && storedBytes == 0 && sequences == 0 && !evicting && seqCounter == 0 && kv.sequences == []
    {
      this.capacity := capacity;
      kv := new FifoKVStack(capacity.totalBytes, capacity.bytesPerToken);
      state, target, storedBytes, sequences, evicting := Idle, 0, 0, 0, false;
      seqTokens, firstSeq, seqCounter, attempts, workers, runStart := 0, None, 0, 0, [], 0;
      concurrency := 0;
      new;
      ReachedInitial(capacity);
    }

    ghost function View(): Controller
      reads this, kv
    {
      Controller(state, target, storedBytes, sequences, evicting, seqTokens, firstSeq, seqCounter, workers, attempts,
                 runStart, kv.history)
    }

    /** The stack is the one described, and the controller is where some run of the machine gets to. */
    ghost predicate Valid()
      reads this, kv
    {
      && kv.capacityBytes == capacity.totalBytes && kv.bytesPerToken == capacity.bytesPerToken && kv.Valid()
      && |workers| == concurrency && Reached(capacity, View())
    }

    /** The status a run with these parameters starts from. */
    predicate StartedWith(p: Params)
      reads this
    {
      var cs := if capacity.chunkSize == 0 then 256 else capacity.chunkSize;
      && state == Running && storedBytes == 0 && sequences == 0 && !evicting && firstSeq == None && attempts == 0
      && concurrency == p.concurrency && seqTokens == Max(cs, p.seqTokens / cs * cs)
      && (p.targetGb.Some? ==> RoundsDown(target, p.targetGb.value * 1024.0 * 1024.0 * 1024.0))
      && (p.targetGb.None? ==> RoundsDown(target, capacity.totalBytes as real * p.fillFactor))
    }

    method Start(p: Params) returns (r: Result<(), StartError>)
      requires Valid() && p.Valid() && (!state.Running? ==> AllOf(workers, Quiet()))
      modifies this
      ensures Valid()
      ensures r == if old(state).Running? then Err(AlreadyRunning)
                   else if TargetBytes(capacity, p).None? then Err(NoTarget) else Ok(())
      ensures View() == if r.Ok? then Apply(capacity, old(View()), Event.Start(p)) else old(View())
      ensures r == Err(NoTarget) ==> p.targetGb.None? && capacity.totalBytes == 0
      ensures r.Ok? ==> StartedWith(p)
    {
      if state.Running? { return Err(AlreadyRunning); }
      var target := TargetBytes(capacity, p);
      if target.None? { return Err(NoTarget); }
      TargetBytesIs(capacity, p);
      SeqTokensIs(capacity.ChunkSize(), p.seqTokens);
      hide Reached, AllOf, TargetBytes, SeqTokens;
      Reset(p, target.value);
      r := Ok(());
    }

    method Reset(p: Params, target: int)
      requires Valid() && Enabled(capacity, View(), Event.Start(p)) && TargetBytes(capacity, p) == Some(target)
      modifies this
      ensures Valid() && View() == Apply(capacity, old(View()), Event.Start(p))
    {
      hide Reached, AllOf;
      ReachedStep(capacity, View(), Event.Start(p));
      var cs := capacity.ChunkSize();
      state, this.target, storedBytes, sequences, evicting := Running, target, 0, 0, false;
      seqTokens := Max(cs, AlignDown(p.seqTokens, cs));
      firstSeq, attempts, concurrency := None, 0, p.concurrency;
      workers, runStart := seq(p.concurrency, _ => Waiting), |kv.history|;
      assert View() == Apply(capacity, old(View()), Event.Start(p));
    }

    /** A fresh sequence: random tokens, the first eight overwritten by the counter. */
    method NextSequence(tokens: array<int>)
      requires Valid() && tokens.Length >= 8
      modifies this`seqCounter, tokens
      ensures seqCounter == old(seqCounter) + 1 && kv.Valid()
      ensures Encodes(tokens[..], seqCounter) && tokens[8..] == old(tokens[8..])
    {
      seqCounter := seqCounter + 1;
      Stamp(tokens, seqCounter);
    }

    /** From the loop guard: leave the loop, or call the stack's store with a new sequence. */
    method WorkerBegin(i: nat, random: array<int>) returns (more: bool)
      requires Valid() && i < |workers| && workers[i].Waiting? && random.Length == seqTokens
      modifies this, kv, random
      ensures Valid() && more == (old(storedBytes) < old(target))
      ensures !more ==> View() == Apply(capacity, old(View()), Exit(i)) && kv.sequences == old(kv.sequences)
      ensures more ==> Enabled(capacity, old(View()), Begin(i, random[..]))
      ensures more ==> View() == Apply(capacity, old(View()), Begin(i, random[..]))
    {
      if storedBytes >= target {
        ReachedStep(capacity, View(), Exit(i));
        workers := workers[i := Exited];
        return false;
      }
      Submit(i, random);
      return true;
    }

    method Submit(i: nat, random: array<int>)
      requires Valid() && i < |workers| && workers[i].Waiting? && random.Length == seqTokens && storedBytes < target
      modifies this, kv, random
      ensures Valid() && Enabled(capacity, old(View()), Begin(i, random[..]))
      ensures View() == Apply(capacity, old(View()), Begin(i, random[..]))
    {
      hide Reached, Encodes;
      ghost var s := View();
      WorkersHaveTokens(capacity, s);
      NextSequence(random);
      var tokens := random[..];
      Enqueue(i, tokens);
      ghost var e := Begin(i, tokens);
      assert View() == Apply(capacity, s, e);
      ReachedStep(capacity, s, e);
    }

    /** Remember the first sequence of the run, and store. */
    method Enqueue(i: nat, tokens: seq<int>)
      requires i < |workers| && kv.Valid()
      modifies this`firstSeq, this`workers, kv
      ensures kv.Valid() && kv.history == old(kv.history) + [tokens] && workers == old(workers)[i := Storing]
      ensures firstSeq == if old(firstSeq).None? then Some(tokens) else old(firstSeq)
    {
      if firstSeq.None? {
        firstSeq := Some(tokens);
      }
      workers := workers[i := Storing];
      kv.Store(tokens);
    }

    /** After the await: account for the acknowledged sequence. */
    method WorkerReturn(i: nat)
      requires Valid() && i < |workers| && workers[i].Storing?
      modifies this
      ensures Valid() && View() == Apply(capacity, old(View()), Return(i))
      ensures storedBytes == old(storedBytes) + seqTokens * capacity.bytesPerToken && sequences == old(sequences) + 1
    {
      ReachedStep(capacity, View(), Return(i));
      OffsetAgrees(capacity.bytesPerToken, seqTokens);
      storedBytes := storedBytes + seqTokens * capacity.bytesPerToken;
      sequences := sequences + 1;
      workers := workers[i := Waiting];
    }

    /** One lookup of the first sequence. */
    method CheckOnce()
      requires Valid() && state.Running? && AllOf(workers, Finished()) && firstSeq.Some?
      modifies this
      ensures Valid() && View() == Apply(capacity, old(View()), Check)
    {
      hide Reached;
      FirstHasTokens(capacity, View());
      ReachedStep(capacity, View(), Check);
      var first := firstSeq.value;
      var hit := kv.Lookup(first);
      evicting := hit < |first|;
      attempts := attempts + 1;
      if evicting || attempts >= EVICTION_CHECK_ATTEMPTS {
        state := Done;
      }
    }

    /** The whole eviction check of a run whose workers have all finished. */
    method CheckEviction()
      requires Valid() && state.Running? && AllOf(workers, Finished())
      modifies this
      ensures Valid() && state.Done? && evicting == FirstEvicted(capacity, old(View()))
      ensures View() == old(View()).(state := state, evicting := evicting, attempts := attempts)
      ensures firstSeq.Some? ==> attempts == if evicting then old(attempts) + 1 else 5
      ensures firstSeq.Some? ==> (evicting <==> firstSeq.value !in kv.sequences)
    {
      hide Reached;
      ghost var s := View();
      RunningHasWorkers(capacity, s);
      WorkersHaveTokens(capacity, s);
      if firstSeq.None? {
        ReachedStep(capacity, View(), Check);
        state, evicting, attempts := Done, false, attempts + 1;
        return;
      }
      while true
        invariant Valid() && state.Running? && AllOf(workers, Finished()) && firstSeq.Some?
        invariant attempts < EVICTION_CHECK_ATTEMPTS
        invariant View() == s.(evicting := evicting, attempts := attempts)
        invariant attempts == s.attempts || firstSeq.value in kv.sequences
        decreases EVICTION_CHECK_ATTEMPTS - attempts
      {
        CheckOnce();
        if state.Done? { return; }
      }
    }

    method Cancel()
      requires Valid()
      modifies this
      ensures Valid()
      ensures View() == if old(state).Running? then Apply(capacity, old(View()), Event.Cancel) else old(View())
      ensures old(state).Running? ==> state == Cancelled && storedBytes == old(storedBytes) && AllOf(workers, Quiet())
    {
      if state.Running? {
        ReachedStep(capacity, View(), Event.Cancel);
        state := Cancelled;
        workers := StopAll(workers);
      }
    }

    /** One pass of the loop, when the store does not suspend. */
    method WorkerTurn(i: nat, draw: seq<int>) returns (more: bool)
      requires Valid() && i < |workers| && workers[i].Waiting? && |draw| == seqTokens
      modifies this, kv
      ensures Valid() && more == (old(storedBytes) < target)
      ensures workers == if more then old(workers) else old(workers)[i := Exited]
      ensures storedBytes == old(storedBytes) + if more then seqTokens * capacity.bytesPerToken else 0
      ensures state == old(state) && target == old(target) && seqTokens == old(seqTokens)
    {
      var random := new int[seqTokens](k requires 0 <= k < |draw| => draw[k]);
      more := WorkerBegin(i, random);
      if more {
        OffsetAgrees(capacity.bytesPerToken, seqTokens);
        WorkerReturn(i);
      }
    }

    /** One worker's whole loop on a stack whose store never suspends, as the FIFO stack's does not. */
    method WorkerLoop(i: nat, rng: nat -> seq<int>)
      requires Valid() && i < |workers| && workers[i].Waiting? && capacity.bytesPerToken > 0
      requires forall n :: |rng(n)| == seqTokens
      modifies this, kv
      ensures Valid() && workers == old(workers)[i := Exited] && state == old(state)
      ensures target == old(target) && seqTokens == old(seqTokens) && storedBytes >= target
      ensures old(storedBytes) < target ==> storedBytes < target + seqTokens * capacity.bytesPerToken
      ensures old(storedBytes) >= target ==> storedBytes == old(storedBytes)
    {
      OffsetAgrees(capacity.bytesPerToken, seqTokens);
      WorkersHaveTokens(capacity, View());
      OffsetMono(capacity.bytesPerToken, 0, seqTokens);
      var sb := seqTokens * capacity.bytesPerToken;
      var more := true;
      while more
        invariant Valid() && i < |workers|
        invariant state == old(state) && target == old(target) && seqTokens == old(seqTokens)
        invariant workers == if more then old(workers) else old(workers)[i := Exited]
        invariant !more ==> storedBytes >= target
        invariant storedBytes == old(storedBytes) || old(storedBytes) <= storedBytes < target + sb
        invariant old(storedBytes) >= target ==> storedBytes == old(storedBytes)
        decreases more, Max(0, target + sb - storedBytes)
      {
        more := WorkerTurn(i, rng(seqCounter));
      }
    }

    /** A whole run with such a stack: the workers take their turns, and only the first one finds work. */
    method RunAlone(rng: nat -> seq<int>)
      requires Valid() && state.Running? && capacity.bytesPerToken > 0 && storedBytes == 0
      requires AllOf(workers, w => w == Waiting) && forall n :: |rng(n)| == seqTokens
      modifies this, kv
      ensures Valid() && state.Done? && target == old(target) && seqTokens == old(seqTokens)
      ensures target <= storedBytes && (target > 0 ==> storedBytes < target + seqTokens * capacity.bytesPerToken)
      ensures var sb := seqTokens * capacity.bytesPerToken;
        && sb > 0 && target >= 0 && storedBytes == CeilDiv(target, sb) * sb
        && (seqCounter <= Pow256(8) ==> (evicting <==> CeilDiv(target, sb) * sb > capacity.totalBytes))
    {
      RunningHasWorkers(capacity, View());
      var k := 0;
      while k < concurrency
        invariant k <= concurrency == |workers| && Valid() && state.Running?
        invariant target == old(target) && seqTokens == old(seqTokens)
        invariant forall j {:trigger workers[j]} | 0 <= j < |workers| :: workers[j] == if j < k then Exited else Waiting
        invariant storedBytes == 0 || storedBytes < target + seqTokens * capacity.bytesPerToken
        invariant k > 0 ==> storedBytes >= target
      {
        WorkerLoop(k, rng);
        k := k + 1;
      }
      CheckEviction();
      Overshoot(capacity, View());
      AloneStored(capacity, View());
      if seqCounter <= Pow256(8) { VerdictIsExact(capacity, View()); }
    }
  }
}
