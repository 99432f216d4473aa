/** Trace events and their summary per operation (src/kvbench/trace/analyze.py). */
module TraceAnalyze {
  import opened Wrappers
  import opened Sums
  import opened SweepLine

  datatype OpKey = OpKey(event: string, op: string, backend: string)

  /** One trace line, with the fields the analysis reads. */
  datatype TraceEvent = TraceEvent(key: OpKey, size: Option<int>, mono: Option<real>, dur: Option<real>,
                                   tid: Option<int>)

  datatype OpStats = OpStats(count: nat, totalBytes: int, sizes: map<int, nat>, durations: seq<real>, threads: set<int>,
                             maxConcurrency: nat, firstMono: Option<real>, lastMono: Option<real>)

  // ---------------------------------------------------------------- what a trace says about one key

  function Matching(events: seq<TraceEvent>, key: OpKey): seq<TraceEvent>
  {
    if events == [] then []
    else
      var n := |events| - 1;
      Matching(events[..n], key) + if events[n].key == key then [events[n]] else []
  }

  lemma MatchingAppend(events: seq<TraceEvent>, e: TraceEvent, key: OpKey)
    ensures Matching(events + [e], key) == Matching(events, key) + if e.key == key then [e] else []
  {
  }

  lemma MatchingNext(events: seq<TraceEvent>, i: nat, key: OpKey)
    requires i < |events|
    ensures Matching(events[..i + 1], key)
         == if events[i].key == key then Matching(events[..i], key) + [events[i]] else Matching(events[..i], key)
  {
    assert events[..i + 1] == events[..i] + [events[i]];
    MatchingAppend(events[..i], events[i], key);
  }

  /** `e.get("size") or 0`. */
  function SizeOf(e: TraceEvent): int { if e.size.Some? then e.size.value else 0 }

  function Bytes(): TraceEvent -> int { (e: TraceEvent) => SizeOf(e) }

  /** How many of the events carry a given payload size. */
  function HasSize(size: int): TraceEvent -> int { (e: TraceEvent) => if SizeOf(e) == size then 1 else 0 }

  function SpanOf(e: TraceEvent): Interval
    requires e.mono.Some?
  {
    Interval(e.mono.value - if e.dur.Some? then e.dur.value else 0.0, e.mono.value)
  }

  function Spans(events: seq<TraceEvent>): seq<Interval>
  {
    if events == [] then []
    else
      var n := |events| - 1;
      Spans(events[..n]) + if events[n].mono.Some? then [SpanOf(events[n])] else []
  }

  lemma SpansAppend(events: seq<TraceEvent>, e: TraceEvent)
    ensures Spans(events + [e]) == Spans(events) + if e.mono.Some? then [SpanOf(e)] else []
  {
  }

  function Durations(events: seq<TraceEvent>): seq<real>
  {
    if events == [] then []
    else
      var n := |events| - 1;
      Durations(events[..n]) + if events[n].dur.Some? then [events[n].dur.value] else []
  }

  predicate NonNegativeDurations(events: seq<TraceEvent>)
  {
    forall i {:trigger events[i]} | 0 <= i < |events| :: events[i].dur.Some? ==> events[i].dur.value >= 0.0
  }

  lemma {:induction false} MatchingDurations(events: seq<TraceEvent>, key: OpKey)
    requires NonNegativeDurations(events)
    ensures NonNegativeDurations(Matching(events, key))
  {
    if events != [] { MatchingDurations(events[..|events| - 1], key); }
  }

  lemma {:induction false} SpansForward(events: seq<TraceEvent>)
    requires NonNegativeDurations(events)
    ensures Forward(Spans(events))
  {
    if events != [] {
      var n := |events| - 1;
      SpansForward(events[..n]);
      assert events[n].dur.Some? ==> events[n].dur.value >= 0.0;
    }
  }

  // ---------------------------------------------------------------- the histogram of sizes

  ghost predicate IsHistogram(sizes: map<int, nat>, events: seq<TraceEvent>)
  {
    && (forall z: int :: z in sizes <==> z != 0 && Sum(HasSize(z), events) > 0)
    && forall z :: z in sizes ==> sizes[z] == Sum(HasSize(z), events)
  }

  function Count(sizes: map<int, nat>, z: int): nat { if z in sizes then sizes[z] else 0 }

  lemma {:induction false} SizeCountsNonNegative(events: seq<TraceEvent>, z: int)
    ensures Sum(HasSize(z), events) >= 0
  {
    if events != [] { SizeCountsNonNegative(events[..|events| - 1], z); }
  }

  lemma HistogramAppend(sizes: map<int, nat>, events: seq<TraceEvent>, e: TraceEvent)
    requires IsHistogram(sizes, events)
    ensures IsHistogram(if SizeOf(e) != 0 then sizes[SizeOf(e) := Count(sizes, SizeOf(e)) + 1] else sizes, events + [e])
  {
    forall z: int
      ensures Sum(HasSize(z), events + [e]) == Sum(HasSize(z), events) + HasSize(z)(e) && Sum(HasSize(z), events) >= 0
    {
      SumAppend(HasSize(z), events, e);
      SizeCountsNonNegative(events, z);
    }
  }

  function Volume(events: seq<TraceEvent>): int -> int { (z: int) => z * Sum(HasSize(z), events) }

  ghost function NonZeroSizes(events: seq<TraceEvent>): set<int>
  {
    set e | e in events && SizeOf(e) != 0 :: SizeOf(e)
  }

  /** Sizes weighted by how often they occur add up to the bytes transferred. */
  lemma {:induction false} VolumeIsBytes(events: seq<TraceEvent>)
    ensures SetSum(Volume(events), NonZeroSizes(events)) == Sum(Bytes(), events)
  {
    if events == [] {
      assert NonZeroSizes(events) == {};
    } else {
      var n := |events| - 1;
      VolumeIsBytes(events[..n]);
      assert events == events[..n] + [events[n]];
      VolumeAppend(events[..n], events[n]);
      SumAppend(Bytes(), events[..n], events[n]);
    }
  }

  lemma SizesAppend(init: seq<TraceEvent>, e: TraceEvent)
    ensures NonZeroSizes(init + [e]) == NonZeroSizes(init) + if SizeOf(e) == 0 then {} else {SizeOf(e)}
  {
  }

  lemma VolumeAppend(init: seq<TraceEvent>, e: TraceEvent)
    ensures SetSum(Volume(init + [e]), NonZeroSizes(init + [e])) == SetSum(Volume(init), NonZeroSizes(init)) + SizeOf(e)
  {
    var z, f, g := SizeOf(e), Volume(init), Volume(init + [e]);
    SizesAppend(init, e);
    VolumeStep(init, e);
    if z == 0 {
      assert NonZeroSizes(init) + {} == NonZeroSizes(init);
      SetSumEq(f, g, NonZeroSizes(init));
    } else {
      AbsentSize(init, z);
      SetSumInsert(f, NonZeroSizes(init), z);
      SetSumChange(f, g, NonZeroSizes(init) + {z}, z);
    }
  }

  lemma VolumeStep(init: seq<TraceEvent>, e: TraceEvent)
    ensures Volume(init + [e])(SizeOf(e)) == Volume(init)(SizeOf(e)) + SizeOf(e)
    ensures forall y :: y != SizeOf(e) ==> Volume(init + [e])(y) == Volume(init)(y)
  {
  }

  lemma {:induction false} AbsentSize(events: seq<TraceEvent>, z: int)
    ensures z != 0 && z !in NonZeroSizes(events) ==> Volume(events)(z) == 0
  {
    if events != [] && z != 0 && z !in NonZeroSizes(events) {
      var n := |events| - 1;
      assert NonZeroSizes(events[..n]) <= NonZeroSizes(events);
      AbsentCount(events, z);
    }
  }

  lemma {:induction false} AbsentCount(events: seq<TraceEvent>, z: int)
    requires z != 0 && z !in NonZeroSizes(events)
    ensures Sum(HasSize(z), events) == 0
  {
    if events != [] {
      var n := |events| - 1;
      assert NonZeroSizes(events[..n]) <= NonZeroSizes(events);
      AbsentCount(events[..n], z);
      assert events[n] in events;
    }
  }

  // ---------------------------------------------------------------- the analysis

  /** x is the least of the starts. */
  predicate IsFirst(x: Option<real>, spans: seq<Interval>)
  {
    if x.None? then spans == []
    else
      && (exists i :: 0 <= i < |spans| && spans[i].start == x.value)
      && forall i :: 0 <= i < |spans| ==> x.value <= spans[i].start
  }

  /** x is the greatest of the ends. */
  predicate IsLast(x: Option<real>, spans: seq<Interval>)
  {
    if x.None? then spans == []
    else
      && (exists i :: 0 <= i < |spans| && spans[i].end == x.value)
      && forall i :: 0 <= i < |spans| ==> spans[i].end <= x.value
  }

  predicate IsThreads(threads: set<int>, events: seq<TraceEvent>)
  {
    && (forall i {:trigger events[i]} | 0 <= i < |events| && events[i].tid.Some? :: events[i].tid.value in threads)
    && forall t :: t in threads ==> exists i :: 0 <= i < |events| && events[i].tid == Some(t)
  }

  function Earlier(x: Option<real>, y: real): Option<real> { if x.Some? && x.value <= y then x else Some(y) }

  function Later(x: Option<real>, y: real): Option<real> { if x.Some? && x.value >= y then x else Some(y) }

  lemma FirstAppend(x: Option<real>, spans: seq<Interval>, v: Interval)
    requires IsFirst(x, spans)
    ensures IsFirst(Earlier(x, v.start), spans + [v])
  {
    var grown := spans + [v];
    if x.Some? && x.value <= v.start {
      var i :| 0 <= i < |spans| && spans[i].start == x.value;
      assert grown[i] == spans[i];
    } else {
      assert grown[|spans|] == v;
    }
  }

  lemma LastAppend(x: Option<real>, spans: seq<Interval>, v: Interval)
    requires IsLast(x, spans)
    ensures IsLast(Later(x, v.end), spans + [v])
  {
    var grown := spans + [v];
    if x.Some? && x.value >= v.end {
      var i :| 0 <= i < |spans| && spans[i].end == x.value;
      assert grown[i] == spans[i];
    } else {
      assert grown[|spans|] == v;
    }
  }

  lemma ThreadsAppend(threads: set<int>, events: seq<TraceEvent>, e: TraceEvent)
    requires IsThreads(threads, events)
    ensures IsThreads(threads + if e.tid.Some? then {e.tid.value} else {}, events + [e])
  {
    var grown := events + [e];
    forall t | t in threads
      ensures exists i :: 0 <= i < |grown| && grown[i].tid == Some(t)
    {
      var i :| 0 <= i < |events| && events[i].tid == Some(t);
      assert grown[i] == events[i];
    }
    assert grown[|events|] == e;
  }

  ghost predicate Summarizes(stats: OpStats, events: seq<TraceEvent>)
  {
    && stats.count == |events| && stats.totalBytes == Sum(Bytes(), events) && IsHistogram(stats.sizes, events)
    && stats.durations == Durations(events) && IsThreads(stats.threads, events)
    && IsFirst(stats.firstMono, Spans(events)) && IsLast(stats.lastMono, Spans(events))
  }

  /** The accumulation of one matching event. */
  method Accumulate(stats: OpStats, e: TraceEvent, ghost seen: seq<TraceEvent>) returns (r: OpStats)
    requires Summarizes(stats, seen)
    ensures Summarizes(r, seen + [e])
  {
    assert (seen + [e])[..|seen|] == seen;
    SumAppend(Bytes(), seen, e);
    HistogramAppend(stats.sizes, seen, e);
    SpansAppend(seen, e);
    ThreadsAppend(stats.threads, seen, e);
    r := stats.(count := stats.count + 1);
    var size := SizeOf(e);
    r := r.(totalBytes := r.totalBytes + size);
    if size != 0 {
      r := r.(sizes := r.sizes[size := Count(r.sizes, size) + 1]);
    }
    if e.dur.Some? {
      r := r.(durations := r.durations + [e.dur.value]);
    }
    if e.tid.Some? {
      r := r.(threads := r.threads + {e.tid.value});
    }
    if e.mono.Some? {
      var v := SpanOf(e);
      FirstAppend(stats.firstMono, Spans(seen), v);
      LastAppend(stats.lastMono, Spans(seen), v);
      r := r.(firstMono := Earlier(r.firstMono, v.start), lastMono := Later(r.lastMono, v.end));
    } else {
      assert Spans(seen) + [] == Spans(seen);
    }
  }

  // ---------------------------------------------------------------- the same in the fields of the events

  /** The events of a key are those of its parts, in order. */
  lemma {:induction false} MatchingSplits(a: seq<TraceEvent>, b: seq<TraceEvent>, e: TraceEvent, key: OpKey)
    ensures Matching(a + b, key) == Matching(a, key) + Matching(b, key)
    ensures Matching([e], key) == (if e.key == key then [e] else []) && Matching([], key) == []
  {
    assert [e][..0] == [];
    if b == [] {
      assert a + b == a && Matching(a, key) + [] == Matching(a, key);
    } else {
      var n := |b| - 1;
      MatchingSplits(a, b[..n], e, key);
      assert a + b == (a + b[..n]) + [b[n]];
      MatchingAppend(a + b[..n], b[n], key);
    }
  }

  /** The durations of the events that have one, in order. */
  lemma {:induction false} DurationsSplit(a: seq<TraceEvent>, b: seq<TraceEvent>, e: TraceEvent)
    ensures Durations(a + b) == Durations(a) + Durations(b)
    ensures Durations([e]) == (if e.dur.Some? then [e.dur.value] else []) && Durations([]) == []
  {
    assert [e][..0] == [];
    if b == [] {
      assert a + b == a && Durations(a) + [] == Durations(a);
    } else {
      var n := |b| - 1;
      DurationsSplit(a, b[..n], e);
      assert (a + b)[..|a| + n] == a + b[..n] && (a + b)[|a| + n] == b[n];
    }
  }

  /** When an operation that ends at its recorded instant began; without a duration it took none. */
  predicate BeganAt(e: TraceEvent, x: real)
  {
    e.mono.Some? && x == (if e.dur.Some? then e.mono.value - e.dur.value else e.mono.value)
  }

  /** x is the greatest recorded instant. */
  ghost predicate IsLastMono(x: Option<real>, events: seq<TraceEvent>)
  {
    && (x.None? <==> forall e | e in events :: e.mono.None?)
    && (x.Some? ==>
          && (exists e :: e in events && e.mono == x)
          && forall e | e in events && e.mono.Some? :: e.mono.value <= x.value)
  }

  /** x is the least beginning. */
  ghost predicate IsFirstMono(x: Option<real>, events: seq<TraceEvent>)
  {
    && (x.None? <==> forall e | e in events :: e.mono.None?)
    && (x.Some? ==>
          && (exists e :: e in events && BeganAt(e, x.value))
          && forall e, y | e in events && BeganAt(e, y) :: x.value <= y)
  }

  /** Under way at time t: begun by then, and ending later. */
  predicate UnderWay(e: TraceEvent, t: real)
  {
    e.mono.Some? && t < e.mono.value && (if e.dur.Some? then e.mono.value - e.dur.value else e.mono.value) <= t
  }

  function CountsAt(t: real): TraceEvent -> int { (e: TraceEvent) => if UnderWay(e, t) then 1 else 0 }

  /** How many of the events are under way at each time. */
  function InProgress(events: seq<TraceEvent>): real -> int { (t: real) => Sum(CountsAt(t), events) }

  /** What an event transferred; without a size, nothing. */
  function Payload(): TraceEvent -> int { (e: TraceEvent) => if e.size.Some? then e.size.value else 0 }

  function OfSize(z: int): TraceEvent -> int { (e: TraceEvent) => if e.size == Some(z) then 1 else 0 }

  lemma {:induction false} SpansCount(events: seq<TraceEvent>, t: real)
    ensures Overlap(Spans(events), t) == InProgress(events)(t)
  {
    if events != [] {
      var n := |events| - 1;
      SpansCount(events[..n], t);
      if events[n].mono.Some? {
        SumAppend(Covers(t), Spans(events[..n]), SpanOf(events[n]));
      } else {
        assert Spans(events) == Spans(events[..n]);
      }
    }
  }

  /** Each span is that of an event, and each event with an instant has its span. */
  lemma {:induction false} SpanFrom(events: seq<TraceEvent>, i: nat) returns (e: TraceEvent)
    requires i < |Spans(events)|
    ensures e in events && e.mono == Some(Spans(events)[i].end) && BeganAt(e, Spans(events)[i].start)
  {
    var n := |events| - 1;
    if i < |Spans(events[..n])| { e := SpanFrom(events[..n], i); } else { e := events[n]; }
  }

  lemma {:induction false} SpanOfEvent(events: seq<TraceEvent>, e: TraceEvent) returns (i: nat)
    requires e in events && e.mono.Some?
    ensures i < |Spans(events)| && e.mono == Some(Spans(events)[i].end) && BeganAt(e, Spans(events)[i].start)
  {
    var n := |events| - 1;
    if e == events[n] {
      i := |Spans(events[..n])|;
    } else {
      assert events == events[..n] + [events[n]];
      i := SpanOfEvent(events[..n], e);
    }
  }

  lemma LastInFields(events: seq<TraceEvent>, x: Option<real>)
    requires IsLast(x, Spans(events))
    ensures IsLastMono(x, events)
  {
    forall e | e in events && e.mono.Some?
      ensures x.Some? && e.mono.value <= x.value
    {
      var i := SpanOfEvent(events, e);
      assert Spans(events)[i].end == e.mono.value;
    }
    if x.Some? {
      var i :| 0 <= i < |Spans(events)| && Spans(events)[i].end == x.value;
      var e := SpanFrom(events, i);
    }
  }

  lemma FirstInFields(events: seq<TraceEvent>, x: Option<real>)
    requires IsFirst(x, Spans(events))
    ensures IsFirstMono(x, events)
  {
    forall e | e in events && e.mono.Some?
      ensures x.Some? && forall y | BeganAt(e, y) :: x.value <= y
    {
      var i := SpanOfEvent(events, e);
      assert Spans(events)[i].start >= x.value;
    }
    if x.Some? {
      var i :| 0 <= i < |Spans(events)| && Spans(events)[i].start == x.value;
      var e := SpanFrom(events, i);
    }
  }

  /** Without negative durations the peak is the most events ever under way at once. */
  lemma PeakInFields(events: seq<TraceEvent>, peak: int)
    requires IsMaximum(OverlapOf(Spans(events)), peak)
    ensures IsMaximum(InProgress(events), peak)
  {
    forall t
      ensures InProgress(events)(t) == OverlapOf(Spans(events))(t)
    {
      SpansCount(events, t);
    }
    var t :| OverlapOf(Spans(events))(t) == peak;
    assert InProgress(events)(t) == peak;
  }

  method Collect(events: seq<TraceEvent>, key: OpKey) returns (stats: OpStats)
    ensures Summarizes(stats, Matching(events, key))
    ensures IsFirstMono(stats.firstMono, Matching(events, key)) && IsLastMono(stats.lastMono, Matching(events, key))
    ensures NonNegativeDurations(events) ==> IsMaximum(InProgress(Matching(events, key)), stats.maxConcurrency)
    ensures stats.totalBytes == Sum(Payload(), Matching(events, key))
    ensures forall z | z != 0 :: Count(stats.sizes, z) == Sum(OfSize(z), Matching(events, key))
    ensures forall z | z in stats.sizes :: z != 0 && stats.sizes[z] > 0
    ensures IsMaximum(NetOverlapOf(Spans(Matching(events, key))), stats.maxConcurrency)
    ensures NonNegativeDurations(events) ==> IsMaximum(OverlapOf(Spans(Matching(events, key))), stats.maxConcurrency)
  {
    stats := OpStats(0, 0, map[], [], {}, 0, None, None);
    var intervals: seq<Interval> := [];
    for i := 0 to |events|
      invariant Summarizes(stats, Matching(events[..i], key)) && intervals == Spans(Matching(events[..i], key))
    {
      var e := events[i];
      ghost var seen := Matching(events[..i], key);
      MatchingNext(events, i, key);
      if e.key != key { continue; }
      SpansAppend(seen, e);
      stats := Accumulate(stats, e, seen);
      if e.mono.Some? {
        intervals := intervals + [SpanOf(e)];
      }
    }
    assert events[..|events|] == events;
    var peak := MaxConcurrency(intervals);
    stats := stats.(maxConcurrency := peak);
    PeakIsExact(events, key, peak);
    InFields(events, key, stats);
  }

  lemma InFields(events: seq<TraceEvent>, key: OpKey, stats: OpStats)
    requires Summarizes(stats, Matching(events, key))
    requires NonNegativeDurations(events) ==> IsMaximum(OverlapOf(Spans(Matching(events, key))), stats.maxConcurrency)
    ensures IsFirstMono(stats.firstMono, Matching(events, key)) && IsLastMono(stats.lastMono, Matching(events, key))
    ensures NonNegativeDurations(events) ==> IsMaximum(InProgress(Matching(events, key)), stats.maxConcurrency)
    ensures stats.totalBytes == Sum(Payload(), Matching(events, key))
    ensures forall z | z != 0 :: Count(stats.sizes, z) == Sum(OfSize(z), Matching(events, key))
    ensures forall z | z in stats.sizes :: z != 0 && stats.sizes[z] > 0
  {
    var found := Matching(events, key);
    FirstInFields(found, stats.firstMono);
    LastInFields(found, stats.lastMono);
    if NonNegativeDurations(events) { PeakInFields(found, stats.maxConcurrency); }
    SumEq(Bytes(), Payload(), found);
    forall z | z != 0
      ensures Count(stats.sizes, z) == Sum(OfSize(z), found)
    {
      SizeCountsNonNegative(found, z);
      SumEq(HasSize(z), OfSize(z), found);
    }
  }

  /** When no duration is negative, the sweep's peak is the true maximum overlap. */
  lemma PeakIsExact(events: seq<TraceEvent>, key: OpKey, peak: int)
    requires IsMaximum(NetOverlapOf(Spans(Matching(events, key))), peak)
    ensures NonNegativeDurations(events) ==> IsMaximum(OverlapOf(Spans(Matching(events, key))), peak)
  {
    if NonNegativeDurations(events) {
      MatchingDurations(events, key);
      SpansForward(Matching(events, key));
      SweepIsExact(Spans(Matching(events, key)), peak);
    }
  }

  /** The sizes collected account for every byte: each size times its count, added up, is the total. */
  lemma SizesConserveBytes(stats: OpStats, events: seq<TraceEvent>)
    requires Summarizes(stats, events)
    ensures SetSum(z => z * Count(stats.sizes, z), stats.sizes.Keys) == stats.totalBytes
  {
    VolumeIsBytes(events);
    forall z | z in stats.sizes.Keys
      ensures z in NonZeroSizes(events)
    {
      if z !in NonZeroSizes(events) { AbsentCount(events, z); }
    }
    forall z | z in NonZeroSizes(events)
      ensures z in stats.sizes.Keys
    {
      PresentCount(events, z);
    }
    assert stats.sizes.Keys == NonZeroSizes(events);
    SetSumEq(Volume(events), z => z * Count(stats.sizes, z), stats.sizes.Keys);
  }

  lemma {:induction false} PresentCount(events: seq<TraceEvent>, z: int)
    requires z in NonZeroSizes(events)
    ensures Sum(HasSize(z), events) > 0
  {
    var n := |events| - 1;
    SizeCountsNonNegative(events[..n], z);
    if SizeOf(events[n]) != z {
      assert events == events[..n] + [events[n]];
      PresentCount(events[..n], z);
    }
  }
}
