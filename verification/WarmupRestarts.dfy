/** A failed warmup restarted while other workers of the failed run are still at work
(src/kvbench/servers/warmup.py).

A failing store ends its run, but only cancellation stops the other workers: they go on checking and adding to the
progress counter, which a restart has meanwhile reset.  Only the progress is modelled here. */
module WarmupRestarts {
  import opened Arith
  import opened Sums
  import Warmup

  /** A worker with the `seq_bytes` of the run that created it. */
  datatype Job = Job(seqBytes: nat, current: bool, phase: Warmup.Worker)

  datatype Progress = Progress(state: Warmup.RunState, target: int, storedBytes: int, jobs: seq<Job>)

  function Initial(): Progress { Progress(Warmup.Idle, 0, 0, []) }

  datatype Move =
    | Start(target: nat, seqBytes: nat, concurrency: nat)
    | Begin(i: nat)
    | Return(i: nat)
    | Exit(i: nat)
    | Raise(i: nat)
    | Finish
    | Cancel

  /** The workers still at work, now of an earlier run. */
  function Leftovers(jobs: seq<Job>): seq<Job>
  {
    if jobs == [] then []
    else
      var job := jobs[|jobs| - 1];
      Leftovers(jobs[..|jobs| - 1]) + if Warmup.Live(job.phase) then [job.(current := false)] else []
  }

  function NewJobs(seqBytes: nat, n: nat): seq<Job> { seq(n, _ => Job(seqBytes, true, Warmup.Waiting)) }

  function Stop(job: Job): Job { if job.current && Warmup.Live(job.phase) then job.(phase := Warmup.Stopped) else job }

  function StopCurrent(jobs: seq<Job>): seq<Job> { seq(|jobs|, i requires 0 <= i < |jobs| => Stop(jobs[i])) }

  predicate PhaseIs(s: Progress, i: nat, phase: Warmup.Worker) { i < |s.jobs| && s.jobs[i].phase == phase }

  predicate CurrentDone(jobs: seq<Job>)
  {
    forall i {:trigger jobs[i]} | 0 <= i < |jobs| && jobs[i].current :: jobs[i].phase.Exited?
  }

  /** A start is refused while running, and only then. */
  predicate Enabled(s: Progress, m: Move)
  {
    match m
    case Start(_, _, _) => !s.state.Running?
    case Begin(i) => PhaseIs(s, i, Warmup.Waiting) && s.storedBytes < s.target
    case Return(i) => PhaseIs(s, i, Warmup.Storing)
    case Exit(i) => PhaseIs(s, i, Warmup.Waiting) && s.storedBytes >= s.target
    case Raise(i) => PhaseIs(s, i, Warmup.Storing)
    case Finish => s.state.Running? && CurrentDone(s.jobs)
    case Cancel => s.state.Running?
  }

  function Moved(s: Progress, i: nat, phase: Warmup.Worker): Progress
    requires i < |s.jobs|
  {
    s.(jobs := s.jobs[i := s.jobs[i].(phase := phase)])
  }

  /** A store that raises ends the current run only if it is one of that run's. */
  function Step(s: Progress, m: Move): Progress
  {
    if !Enabled(s, m) then s
    else
      match m
      case Start(target, seqBytes, n) => Progress(Warmup.Running, target, 0, Leftovers(s.jobs) + NewJobs(seqBytes, n))
      case Begin(i) => Moved(s, i, Warmup.Storing)
      case Return(i) => Moved(s, i, Warmup.Waiting).(storedBytes := s.storedBytes + s.jobs[i].seqBytes)
      case Exit(i) => Moved(s, i, Warmup.Exited)
      case Raise(i) =>
        Moved(s, i, Warmup.Failed).(state := if s.jobs[i].current then Warmup.Error else s.state)
      case Finish => s.(state := Warmup.Done)
      case Cancel => s.(state := Warmup.Cancelled, jobs := StopCurrent(s.jobs))
  }

  function Run(s: Progress, moves: seq<Move>): Progress
  {
    if moves == [] then s else Step(Run(s, moves[..|moves| - 1]), moves[|moves| - 1])
  }

  // ---------------------------------------------------------------- the bound that always holds

  function Bytes(): Job -> int { (job: Job) => job.seqBytes }

  function Pending(): Job -> int { (job: Job) => if job.phase.Storing? then job.seqBytes else 0 }

  /** What is stored and what is being stored stays within one sequence a worker, leftover workers included. */
  predicate Inv(s: Progress)
  {
    && s.target >= 0 && s.storedBytes >= 0
    && s.storedBytes + Sum(Pending(), s.jobs) <= Max(0, s.target - 1) + Sum(Bytes(), s.jobs)
  }

  lemma JobMoves(s: Progress, i: nat, phase: Warmup.Worker)
    requires i < |s.jobs|
    ensures Sum(Bytes(), Moved(s, i, phase).jobs) == Sum(Bytes(), s.jobs)
    ensures Sum(Pending(), Moved(s, i, phase).jobs)
         == Sum(Pending(), s.jobs) - Pending()(s.jobs[i]) + if phase.Storing? then s.jobs[i].seqBytes else 0
  {
    SumUpdate(Bytes(), s.jobs, i, s.jobs[i].(phase := phase));
    SumUpdate(Pending(), s.jobs, i, s.jobs[i].(phase := phase));
  }

  lemma {:induction false} StopSums(jobs: seq<Job>)
    ensures Sum(Bytes(), StopCurrent(jobs)) == Sum(Bytes(), jobs)
    ensures Sum(Pending(), StopCurrent(jobs)) <= Sum(Pending(), jobs)
  {
    if jobs != [] {
      var n := |jobs| - 1;
      StopSums(jobs[..n]);
      assert StopCurrent(jobs)[..n] == StopCurrent(jobs[..n]);
    }
  }

  lemma StepKeeps(s: Progress, m: Move)
    requires Inv(s)
    ensures Inv(Step(s, m))
    ensures !m.Start? ==> Sum(Bytes(), Step(s, m).jobs) == Sum(Bytes(), s.jobs) && Step(s, m).target == s.target
  {
    SumLe(Pending(), Bytes(), s.jobs);
    if Enabled(s, m) {
      match m
      case Start(_, _, _) => SumLe(Pending(), Bytes(), Step(s, m).jobs);
      case Begin(i) =>
        JobMoves(s, i, Warmup.Storing);
        SumLe(Pending(), Bytes(), Moved(s, i, Warmup.Storing).jobs);
      case Return(i) => JobMoves(s, i, Warmup.Waiting);
      case Exit(i) => JobMoves(s, i, Warmup.Exited);
      case Raise(i) => JobMoves(s, i, Warmup.Failed);
      case Finish =>
      case Cancel => StopSums(s.jobs);
    }
  }

  predicate NoStart(moves: seq<Move>) { forall i {:trigger moves[i]} | 0 <= i < |moves| :: !moves[i].Start? }

  lemma {:induction false} RunKeeps(s: Progress, moves: seq<Move>)
    requires Inv(s)
    ensures Inv(Run(s, moves))
    ensures NoStart(moves) ==>
      Sum(Bytes(), Run(s, moves).jobs) == Sum(Bytes(), s.jobs) && Run(s, moves).target == s.target
  {
    if moves != [] {
      var n := |moves| - 1;
      RunKeeps(s, moves[..n]);
      StepKeeps(Run(s, moves[..n]), moves[n]);
    }
  }

  lemma {:induction false} NewBytes(seqBytes: nat, n: nat)
    ensures Sum(Bytes(), NewJobs(seqBytes, n)) == n * seqBytes
  {
    if n > 0 {
      NewBytes(seqBytes, n - 1);
      assert NewJobs(seqBytes, n)[..n - 1] == NewJobs(seqBytes, n - 1);
      assert n * seqBytes == (n - 1) * seqBytes + seqBytes;
    }
  }

  /** Whatever ran before, a run stores less than its target, one sequence for each of its workers, and one of its own
      for each worker left over. */
  lemma RestartOvershoot(before: seq<Move>, target: nat, seqBytes: nat, n: nat, after: seq<Move>)
    requires target > 0 && !Run(Initial(), before).state.Running? && NoStart(after)
    ensures var s := Run(Initial(), before);
      Run(Step(s, Start(target, seqBytes, n)), after).storedBytes
      < target + n * seqBytes + Sum(Bytes(), Leftovers(s.jobs))
  {
    var s := Run(Initial(), before);
    var t := Step(s, Start(target, seqBytes, n));
    RunKeeps(Initial(), before);
    StepKeeps(s, Start(target, seqBytes, n));
    RunKeeps(t, after);
    var u := Run(t, after);
    SumConcat(Bytes(), Leftovers(s.jobs), NewJobs(seqBytes, n));
    NewBytes(seqBytes, n);
    PendingNonNegative(u.jobs);
  }

  lemma {:induction false} PendingNonNegative(jobs: seq<Job>)
    ensures Sum(Pending(), jobs) >= 0
  {
    if jobs != [] { PendingNonNegative(jobs[..|jobs| - 1]); }
  }

  /** A store raising in a leftover worker fails no run, and cancellation stops no leftover worker. */
  lemma LeftoversStandApart(s: Progress, i: nat)
    requires i < |s.jobs| && !s.jobs[i].current
    ensures Step(s, Raise(i)).state == s.state
    ensures s.jobs[i].phase.Storing? ==> Step(s, Raise(i)).jobs[i].phase == Warmup.Failed
    ensures Step(s, Cancel).jobs[i] == s.jobs[i]
    ensures s.state.Running? ==> Step(s, Cancel).state.Cancelled?
  {
  }

  /** A run is done exactly when it is running and each worker of its own has left its loop. */
  lemma DoneIff(s: Progress)
    requires !s.state.Done?
    ensures Step(s, Finish).state.Done?
       <==> s.state.Running? && forall job | job in s.jobs && job.current :: job.phase == Warmup.Exited
  {
    if CurrentDone(s.jobs) {
      forall job | job in s.jobs && job.current
        ensures job.phase == Warmup.Exited
      {
        var i :| 0 <= i < |s.jobs| && s.jobs[i] == job;
      }
    }
  }

  /** A start leaves over exactly the workers still at work, in order, each with its own seq_bytes. */
  lemma {:induction false} LeftoversAre(jobs: seq<Job>, job: Job)
    ensures Leftovers(jobs + [job]) == Leftovers(jobs)
         + if job.phase.Waiting? || job.phase.Storing? then [Job(job.seqBytes, false, job.phase)] else []
    ensures Leftovers([]) == []
  {
    assert (jobs + [job])[..|jobs|] == jobs;
  }

  // ---------------------------------------------------------------- when the documented bound holds

  /** u is where a run that is not restarted gets to from t. */
  ghost predicate Reaches(t: Progress, u: Progress) { exists moves :: NoStart(moves) && Run(t, moves) == u }

  lemma ReachesItself(t: Progress)
    ensures Reaches(t, t)
  {
    assert NoStart([]) && Run(t, []) == t;
  }

  lemma ReachesNext(t: Progress, u: Progress, m: Move)
    requires Reaches(t, u) && !m.Start?
    ensures Reaches(t, Step(u, m))
  {
    var moves :| NoStart(moves) && Run(t, moves) == u;
    var longer := moves + [m];
    assert longer[..|moves|] == moves && longer[|moves|] == m;
    assert NoStart(longer) && Run(t, longer) == Step(u, m);
  }

  /** One worker stores again and again while the others wait, until its next store reaches the target. */
  lemma {:induction false} Climb(t: Progress, u: Progress, z: nat) returns (v: Progress)
    requires Reaches(t, u) && PhaseIs(u, z, Warmup.Storing) && u.jobs[z].seqBytes > 0 && 0 <= u.storedBytes < u.target
    ensures Reaches(t, v) && v == u.(storedBytes := v.storedBytes)
    ensures 0 <= v.storedBytes < v.target <= v.storedBytes + v.jobs[z].seqBytes
    decreases u.target - u.storedBytes
  {
    if u.storedBytes + u.jobs[z].seqBytes >= u.target { return u; }
    ReachesNext(t, u, Return(z));
    var w := Step(u, Return(z));
    ReachesNext(t, w, Begin(z));
    assert Step(w, Begin(z)).jobs == u.jobs;
    v := Climb(t, Step(w, Begin(z)), z);
  }

  /** The jobs from lead on are the n of the new run, in this phase. */
  predicate AllIn(jobs: seq<Job>, lead: nat, seqBytes: nat, n: nat, phase: Warmup.Worker)
  {
    |jobs| == lead + n && forall i {:trigger jobs[i]} | lead <= i < |jobs| :: jobs[i] == Job(seqBytes, true, phase)
  }

  /** Each of the n begins its store before any returns. */
  lemma AllBegin(t: Progress, u: Progress, lead: nat, seqBytes: nat, n: nat) returns (v: Progress)
    requires Reaches(t, u) && u.storedBytes < u.target && AllIn(u.jobs, lead, seqBytes, n, Warmup.Waiting)
    ensures Reaches(t, v) && v == u.(jobs := v.jobs) && AllIn(v.jobs, lead, seqBytes, n, Warmup.Storing)
    ensures v.jobs[..lead] == u.jobs[..lead]
  {
    v := u;
    for j := lead to lead + n
      invariant Reaches(t, v) && v == u.(jobs := v.jobs) && |v.jobs| == |u.jobs| && v.jobs[..lead] == u.jobs[..lead]
      invariant forall i {:trigger v.jobs[i]} | lead <= i < |v.jobs| ::
        v.jobs[i] == Job(seqBytes, true, if i < j then Warmup.Storing else Warmup.Waiting)
    {
      ReachesNext(t, v, Begin(j));
      v := Step(v, Begin(j));
    }
  }

  lemma AllReturn(t: Progress, u: Progress, lead: nat, seqBytes: nat, n: nat) returns (v: Progress)
    requires Reaches(t, u) && AllIn(u.jobs, lead, seqBytes, n, Warmup.Storing)
    ensures Reaches(t, v) && v.storedBytes == u.storedBytes + n * seqBytes && v.target == u.target
  {
    v := u;
    for j := 0 to n
      invariant Reaches(t, v) && |v.jobs| == lead + n && v.target == u.target
      invariant v.storedBytes == u.storedBytes + j * seqBytes
      invariant forall i {:trigger v.jobs[i]} | lead + j <= i < |v.jobs| ::
        v.jobs[i] == Job(seqBytes, true, Warmup.Storing)
    {
      ReachesNext(t, v, Return(lead + j));
      v := Step(v, Return(lead + j));
      assert (j + 1) * seqBytes == j * seqBytes + seqBytes;
    }
  }

  lemma {:induction false} LeftoversLive(jobs: seq<Job>)
    ensures forall job | job in Leftovers(jobs) :: !job.current && Warmup.Live(job.phase)
  {
    if jobs != [] { LeftoversLive(jobs[..|jobs| - 1]); }
  }

  /** With a leftover worker that stores bytes, the run can store more than its own workers account for. */
  lemma LeftoverOvershoots(t: Progress, z: nat, lead: nat, seqBytes: nat, n: nat) returns (v: Progress)
    requires t.target > 0 && t.storedBytes == 0 && z < lead && AllIn(t.jobs, lead, seqBytes, n, Warmup.Waiting)
    requires t.jobs[z].seqBytes > 0 && Warmup.Live(t.jobs[z].phase)
    ensures Reaches(t, v) && v.storedBytes >= t.target + n * seqBytes
  {
    ReachesItself(t);
    var a := t;
    if t.jobs[z].phase.Waiting? {
      ReachesNext(t, t, Begin(z));
      a := Step(t, Begin(z));
    }
    var b := Climb(t, a, z);
    var c := AllBegin(t, b, lead, seqBytes, n);
    assert c.jobs[..lead][z] == b.jobs[..lead][z];
    ReachesNext(t, c, Return(z));
    v := AllReturn(t, Step(c, Return(z)), lead, seqBytes, n);
  }

  lemma {:induction false} NoBytesLeft(jobs: seq<Job>)
    requires forall job | job in jobs :: job.seqBytes == 0
    ensures Sum(Bytes(), jobs) == 0
  {
    if jobs != [] { NoBytesLeft(jobs[..|jobs| - 1]); }
  }

  /** A started run is sure to stay below target + concurrency * seq_bytes exactly when no worker that stores bytes is
      left over from an earlier one. */
  lemma OvershootIff(before: seq<Move>, target: nat, seqBytes: nat, n: nat)
    requires target > 0 && !Run(Initial(), before).state.Running?
    ensures var s := Run(Initial(), before);
      (forall u | Reaches(Step(s, Start(target, seqBytes, n)), u) :: u.storedBytes < target + n * seqBytes)
      <==> (forall job | job in Leftovers(s.jobs) :: job.seqBytes == 0)
  {
    var s := Run(Initial(), before);
    var t, left := Step(s, Start(target, seqBytes, n)), Leftovers(s.jobs);
    if forall job | job in left :: job.seqBytes == 0 {
      NoBytesLeft(left);
      forall u | Reaches(t, u)
        ensures u.storedBytes < target + n * seqBytes
      {
        var after :| NoStart(after) && Run(t, after) == u;
        RestartOvershoot(before, target, seqBytes, n, after);
      }
    } else {
      var z :| 0 <= z < |left| && left[z].seqBytes > 0;
      LeftoversLive(s.jobs);
      assert t.jobs[z] == left[z];
      var v := LeftoverOvershoots(t, z, |left|, seqBytes, n);
    }
  }

  /** Two workers are storing, and the first one's store raises: the run has failed and the second goes on. */
  function FailedRun(target: nat, seqBytes: nat): seq<Move>
  {
    [Start(target, seqBytes, 2), Begin(0), Begin(1), Raise(0)]
  }

  lemma FailedRunLeaves(target: nat, seqBytes: nat)
    requires target > 0
    ensures var s := Run(Initial(), FailedRun(target, seqBytes));
      s.state.Error? && Leftovers(s.jobs) == [Job(seqBytes, false, Warmup.Storing)]
  {
    var moves := FailedRun(target, seqBytes);
    var waiting := Job(seqBytes, true, Warmup.Waiting);
    assert moves[..4] == moves && moves[..3][..2] == moves[..2];
    assert moves[..2][..1] == moves[..1] && moves[..1][..0] == [];
    assert NewJobs(seqBytes, 2) == [waiting, waiting] && Leftovers([]) == [];
    assert Run(Initial(), moves[..0]) == Initial();
    assert Run(Initial(), moves[..1]) == Progress(Warmup.Running, target, 0, [waiting, waiting]);
    var storing := waiting.(phase := Warmup.Storing);
    assert Run(Initial(), moves[..2]) == Progress(Warmup.Running, target, 0, [storing, waiting]);
    assert Run(Initial(), moves[..3]) == Progress(Warmup.Running, target, 0, [storing, storing]);
    var jobs := [waiting.(phase := Warmup.Failed), storing];
    assert Run(Initial(), moves) == Progress(Warmup.Error, target, 0, jobs);
    assert jobs[..1] == [jobs[0]] && jobs[..1][..0] == [];
  }

  /** After it, any new run can store more than its own workers account for. */
  lemma RestartCanExceed(failed: nat, failedBytes: nat, target: nat, seqBytes: nat, n: nat) returns (v: Progress)
    requires failed > 0 && failedBytes > 0 && target > 0
    ensures var s := Run(Initial(), FailedRun(failed, failedBytes));
      && s.state.Error? && Reaches(Step(s, Start(target, seqBytes, n)), v)
      && v.storedBytes >= target + n * seqBytes
  {
    FailedRunLeaves(failed, failedBytes);
    var s := Run(Initial(), FailedRun(failed, failedBytes));
    v := LeftoverOvershoots(Step(s, Start(target, seqBytes, n)), 0, 1, seqBytes, n);
  }

  // ---------------------------------------------------------------- the machine without leftovers

  function JobsOf(seqBytes: nat, workers: seq<Warmup.Worker>): seq<Job>
  {
    seq(|workers|, i requires 0 <= i < |workers| => Job(seqBytes, true, workers[i]))
  }

  function View(c: Warmup.Capacity, s: Warmup.Controller): Progress
  {
    Progress(s.state, s.target, s.storedBytes, JobsOf(Warmup.SeqBytes(c, s), s.workers))
  }

  lemma {:induction false} NoneLeft(jobs: seq<Job>)
    requires forall i {:trigger jobs[i]} | 0 <= i < |jobs| :: !Warmup.Live(jobs[i].phase)
    ensures Leftovers(jobs) == []
  {
    if jobs != [] { NoneLeft(jobs[..|jobs| - 1]); }
  }

  function MoveOf(c: Warmup.Capacity, s: Warmup.Controller, e: Warmup.Event): Move
    requires e.Start? ==> e.params.Valid() && Warmup.TargetBytes(c, e.params).Some?
  {
    match e
    case Start(p) =>
      Warmup.TargetNonNegative(c, p);
      var seqTokens := Warmup.SeqTokens(c.ChunkSize(), p.seqTokens);
      Start(Warmup.TargetBytes(c, p).value, Offset(c.bytesPerToken, seqTokens), p.concurrency)
    case Begin(i, _) => Begin(i)
    case Return(i) => Return(i)
    case Exit(i) => Exit(i)
    case Raise(i) => Raise(i)
    case Check => Finish
    case Cancel => Cancel
  }

  /** Where that machine steps, this one takes the same step on the progress; an eviction check that is to be repeated
      leaves it alone. */
  lemma Simulates(c: Warmup.Capacity, s: Warmup.Controller, e: Warmup.Event)
    requires Warmup.Inv(c, s) && Warmup.Enabled(c, s, e)
    ensures var next := View(c, Warmup.Apply(c, s, e));
      next == Step(View(c, s), MoveOf(c, s, e)) || (e.Check? && next == View(c, s))
  {
    var next, taken := View(c, Warmup.Apply(c, s, e)), Step(View(c, s), MoveOf(c, s, e));
    if e.Start? { NoneLeft(View(c, s).jobs); }
    if next.state == taken.state { assert next.jobs == taken.jobs; }
  }
}
