/** The trace recorder: a buffered log with running counters (src/kvbench/trace/recorder.py).

Each critical section runs under the recorder's lock, so a run of the recorder is a sequence of whole record,
flush and close calls, from whichever threads they come. */
module TraceRecorders {
  import opened Sums
  import opened TraceAnalyze

  const FLUSH_EVERY_RECORDS: nat := 256
  const FLUSH_EVERY_SECONDS := 1.0

  /** A line of the log and the clock when it was written. */
  datatype Line = Line(event: TraceEvent, at: real)

  datatype Counter = Counter(ops: nat, bytes: int)

  /** The first `flushed` lines have been flushed to the file. */
  datatype Log = Log(lines: seq<Line>, flushed: nat, counters: map<OpKey, Counter>, unflushed: nat, closed: bool,
                     lastFlush: real)

  function Opened(now: real): Log { Log([], 0, map[], 0, false, now) }

  datatype Op = Record(event: TraceEvent, now: real) | Flush | Close

  /** The defaultdict entry of a key. */
  function CounterOf(counters: map<OpKey, Counter>, key: OpKey): Counter
  {
    if key in counters then counters[key] else Counter(0, 0)
  }

  predicate MustFlush(unflushed: nat, elapsed: real)
  {
    unflushed >= FLUSH_EVERY_RECORDS || elapsed >= FLUSH_EVERY_SECONDS
  }

  function Step(log: Log, op: Op): Log
  {
    if log.closed then log
    else
      match op
      case Record(e, now) =>
        var c := CounterOf(log.counters, e.key);
        var written := log.(lines := log.lines + [Line(e, now)], unflushed := log.unflushed + 1,
                            counters := log.counters[e.key := Counter(c.ops + 1, c.bytes + SizeOf(e))]);
        if MustFlush(written.unflushed, now - log.lastFlush)
        then written.(flushed := |written.lines|, unflushed := 0, lastFlush := now)
        else written
      case Flush => log.(flushed := |log.lines|)
      case Close => log.(flushed := |log.lines|, closed := true)
  }

  function Run(log: Log, ops: seq<Op>): Log
  {
    if ops == [] then log else Step(Run(log, ops[..|ops| - 1]), ops[|ops| - 1])
  }

  // ---------------------------------------------------------------- the log keeps what was recorded before closing

  function Recorded(ops: seq<Op>): seq<TraceEvent>
  {
    if ops == [] || ops[0].Close? then []
    else (if ops[0].Record? then [ops[0].event] else []) + Recorded(ops[1..])
  }

  function EventsOf(lines: seq<Line>): seq<TraceEvent> { seq(|lines|, i requires 0 <= i < |lines| => lines[i].event) }

  lemma {:induction false} RecordedAppend(ops: seq<Op>, op: Op)
    ensures Recorded(ops + [op]) == Recorded(ops) + if Close !in ops && op.Record? then [op.event] else []
  {
    if ops == [] {
      assert [op][1..] == [];
    } else {
      assert (ops + [op])[1..] == ops[1..] + [op];
      assert ops == [ops[0]] + ops[1..];
      RecordedAppend(ops[1..], op);
    }
  }

  lemma {:induction false} LogKeepsRecords(start: real, ops: seq<Op>)
    ensures var log := Run(Opened(start), ops);
      EventsOf(log.lines) == Recorded(ops) && (log.closed <==> Close in ops)
  {
    if ops != [] {
      var init, op := ops[..|ops| - 1], ops[|ops| - 1];
      assert ops == init + [op];
      LogKeepsRecords(start, init);
      RecordedAppend(init, op);
    }
  }

  // ---------------------------------------------------------------- what every run keeps

  /** The incremental table holds, for every key, what the analysis computes from the lines written. */
  ghost predicate CountersAgree(log: Log)
  {
    forall key :: KeyAgrees(log, key)
  }

  ghost predicate KeyAgrees(log: Log, key: OpKey)
  {
    var found := Matching(EventsOf(log.lines), key);
    && (key in log.counters <==> found != [])
    && CounterOf(log.counters, key) == Counter(|found|, Sum(Bytes(), found))
  }

  ghost predicate FlushesFit(log: Log)
  {
    && log.flushed <= |log.lines| <= log.flushed + log.unflushed && log.unflushed < FLUSH_EVERY_RECORDS
    && (log.closed ==> log.flushed == |log.lines|)
  }

  /** While the clock does not run backwards, what is not flushed was written since the last timed flush. */
  ghost predicate Fresh(log: Log)
  {
    forall i {:trigger log.lines[i]} | log.flushed <= i < |log.lines| ::
      log.lastFlush <= log.lines[i].at < log.lastFlush + FLUSH_EVERY_SECONDS
  }

  /** One more event counts for its own key only. */
  lemma MatchingNow(events: seq<TraceEvent>, e: TraceEvent, key: OpKey)
    ensures var found, now := Matching(events, key), Matching(events + [e], key);
      if key != e.key then now == found
      else |now| == |found| + 1 && Sum(Bytes(), now) == Sum(Bytes(), found) + SizeOf(e)
  {
    MatchingAppend(events, e, key);
    SumAppend(Bytes(), Matching(events, key), e);
  }

  lemma RecordAgrees(log: Log, e: TraceEvent, now: real)
    requires CountersAgree(log) && !log.closed
    ensures CountersAgree(Step(log, Record(e, now)))
  {
    hide Matching, Sum;
    var next := Step(log, Record(e, now));
    var events := EventsOf(log.lines);
    assert EventsOf(next.lines) == events + [e];
    forall key
      ensures KeyAgrees(next, key)
    {
      assert KeyAgrees(log, key);
      MatchingNow(events, e, key);
    }
  }

  lemma {:induction false} RunAgrees(start: real, ops: seq<Op>)
    ensures var log := Run(Opened(start), ops); CountersAgree(log) && FlushesFit(log)
  {
    if ops == [] {
      assert EventsOf([]) == [];
    } else {
      var init, op := ops[..|ops| - 1], ops[|ops| - 1];
      RunAgrees(start, init);
      var log := Run(Opened(start), init);
      if op.Record? && !log.closed {
        RecordAgrees(log, op.event, op.now);
      } else {
        assert Step(log, op).lines == log.lines && Step(log, op).counters == log.counters;
        forall key ensures KeyAgrees(Step(log, op), key) { assert KeyAgrees(log, key); }
      }
    }
  }

  /** After any interleaving of calls, every counter is the count and total_bytes that `_collect` computes from
      the log. */
  lemma CountersMatchAnalysis(start: real, ops: seq<Op>, key: OpKey, stats: OpStats)
    requires Summarizes(stats, Matching(EventsOf(Run(Opened(start), ops).lines), key))
    ensures CounterOf(Run(Opened(start), ops).counters, key) == Counter(stats.count, stats.totalBytes)
    ensures key in Run(Opened(start), ops).counters <==> stats.count > 0
  {
    RunAgrees(start, ops);
    assert KeyAgrees(Run(Opened(start), ops), key);
  }

  /** At most 255 lines are ever waiting to be flushed. */
  lemma FewUnflushed(start: real, ops: seq<Op>)
    ensures var log := Run(Opened(start), ops);
      log.flushed <= |log.lines| <= log.flushed + 255
  {
    RunAgrees(start, ops);
  }

  lemma {:induction false} ClosedStays(log: Log, ops: seq<Op>)
    requires log.closed
    ensures Run(log, ops) == log
  {
    if ops != [] { ClosedStays(log, ops[..|ops| - 1]); }
  }

  lemma {:induction false} RunConcat(log: Log, a: seq<Op>, b: seq<Op>)
    ensures Run(log, a + b) == Run(Run(log, a), b)
  {
    if b == [] {
      assert a + b == a;
    } else {
      var n := |b| - 1;
      assert (a + b)[..|a| + n] == a + b[..n];
      RunConcat(log, a, b[..n]);
    }
  }

  /** Closing flushes every line, and no later call changes anything. */
  lemma CloseIsFinal(start: real, before: seq<Op>, after: seq<Op>)
    ensures var log := Run(Opened(start), before + [Close] + after);
      && log == Run(Opened(start), before + [Close]) && log.closed && log.flushed == |log.lines|
      && EventsOf(log.lines) == Recorded(before)
  {
    var closed := Run(Opened(start), before + [Close]);
    RunConcat(Opened(start), before + [Close], after);
    assert (before + [Close])[..|before|] == before;
    RunAgrees(start, before);
    LogKeepsRecords(start, before);
    ClosedStays(closed, after);
  }

  // ---------------------------------------------------------------- the timed flush

  /** The clock read inside the lock never runs backwards. */
  predicate Clocked(start: real, ops: seq<Op>)
  {
    forall i, j {:trigger ops[i], ops[j]} | 0 <= i <= j < |ops| && ops[i].Record? && ops[j].Record? ::
      start <= ops[i].now <= ops[j].now
  }

  ghost predicate FlushedBefore(log: Log, start: real, ops: seq<Op>)
  {
    log.lastFlush == start || exists i :: 0 <= i < |ops| && ops[i].Record? && ops[i].now == log.lastFlush
  }

  /** Lines waiting to be flushed were all written within the second that follows the last timed flush. */
  lemma {:induction false} UnflushedAreRecent(start: real, ops: seq<Op>)
    requires Clocked(start, ops)
    ensures Fresh(Run(Opened(start), ops)) && FlushedBefore(Run(Opened(start), ops), start, ops)
  {
    if ops != [] {
      var init, op := ops[..|ops| - 1], ops[|ops| - 1];
      UnflushedAreRecent(start, init);
      var log := Run(Opened(start), init);
      if log.lastFlush != start {
        var i :| 0 <= i < |init| && init[i].Record? && init[i].now == log.lastFlush;
        assert ops[i] == init[i];
      }
      if op.Record? && !log.closed {
        assert ops[|ops| - 1].now == op.now >= log.lastFlush;
      }
    }
  }

  // ---------------------------------------------------------------- the recorder

  class TraceRecorder {
    var lines: seq<Line>
    var flushed: nat
    var counters: map<OpKey, Counter>
    var unflushed: nat
    var closed: bool
    var lastFlush: real

    constructor (now: real)
      ensures View() == Opened(now)
    {
      lines, flushed, counters, unflushed, closed, lastFlush := [], 0, map[], 0, false, now;
    }

    function View(): Log
      reads this
    {
      Log(lines, flushed, counters, unflushed, closed, lastFlush)
    }

    /** One more operation of its key, and its size more bytes; the other keys keep their counters. */
    predicate CountedIn(before: map<OpKey, Counter>, e: TraceEvent)
      reads this
    {
      && counters.Keys == before.Keys + {e.key}
      && counters[e.key].ops == (if e.key in before then before[e.key].ops else 0) + 1
      && counters[e.key].bytes == (if e.key in before then before[e.key].bytes else 0)
                                  + (if e.size.Some? then e.size.value else 0)
      && forall k | k in before && k != e.key :: counters[k] == before[k]
    }

    method Record(e: TraceEvent, now: real)
      modifies this
      ensures View() == Step(old(View()), Op.Record(e, now))
      ensures old(closed) ==> View() == old(View())
      ensures !old(closed) ==> lines == old(lines) + [Line(e, now)] && !closed && CountedIn(old(counters), e)
      ensures !old(closed) ==>
        if old(unflushed) + 1 >= 256 || now - old(lastFlush) >= 1.0
        then flushed == |lines| && unflushed == 0 && lastFlush == now
        else flushed == old(flushed) && unflushed == old(unflushed) + 1 && lastFlush == old(lastFlush)
    {
      if closed { return; }
      lines := lines + [Line(e, now)];
      var counter := CounterOf(counters, e.key);
      counter := counter.(ops := counter.ops + 1);
      counter := counter.(bytes := counter.bytes + SizeOf(e));
      counters := counters[e.key := counter];
      unflushed := unflushed + 1;
      if unflushed >= FLUSH_EVERY_RECORDS || now - lastFlush >= FLUSH_EVERY_SECONDS {
        flushed := |lines|;
        unflushed := 0;
        lastFlush := now;
      }
    }

    /** An explicit flush leaves the two flush triggers as they are. */
    method Flush()
      modifies this
      ensures View() == Step(old(View()), Op.Flush)
      ensures lines == old(lines) && counters == old(counters) && closed == old(closed)
      ensures unflushed == old(unflushed) && lastFlush == old(lastFlush)
      ensures flushed == if closed then old(flushed) else |lines|
    {
      if !closed {
        flushed := |lines|;
      }
    }

    method Close()
      modifies this
      ensures View() == Step(old(View()), Op.Close)
      ensures lines == old(lines) && counters == old(counters) && closed
      ensures flushed == if old(closed) then old(flushed) else |lines|
    {
      if closed { return; }
      closed := true;
      flushed := |lines|;
    }
  }
}
