/** Maximum overlap of operation intervals by a sweep line (src/kvbench/trace/analyze.py). */
module SweepLine {
  import opened Arith
  import opened Sums

  datatype Interval = Interval(start: real, end: real)

  datatype Point = Point(time: real, delta: int)

  // ---------------------------------------------------------------- what is to be computed

  function Covers(t: real): Interval -> int { (v: Interval) => if v.start <= t < v.end then 1 else 0 }

  /** An interval that ends before it starts counts against the instants in between. */
  function Net(t: real): Interval -> int
  {
    (v: Interval) => if v.start <= t < v.end then 1 else if v.end <= t < v.start then -1 else 0
  }

  function Overlap(intervals: seq<Interval>, t: real): int { Sum(Covers(t), intervals) }

  function NetOverlap(intervals: seq<Interval>, t: real): int { Sum(Net(t), intervals) }

  /** m is the largest value of f, and f takes it. */
  ghost predicate IsMaximum(f: real -> int, m: int)
  {
    (forall t :: f(t) <= m) && exists t :: f(t) == m
  }

  function OverlapOf(intervals: seq<Interval>): real -> int { (t: real) => Overlap(intervals, t) }

  function NetOverlapOf(intervals: seq<Interval>): real -> int { (t: real) => NetOverlap(intervals, t) }

  // ---------------------------------------------------------------- the points, sorted

  /** The sort key (time, delta): ends come before starts at the same instant. */
  predicate Before(p: Point, q: Point) { p.time < q.time || (p.time == q.time && p.delta <= q.delta) }

  predicate Sorted(ps: seq<Point>) { forall i, j | 0 <= i < j < |ps| :: Before(ps[i], ps[j]) }

  function Insert(p: Point, ps: seq<Point>): (qs: seq<Point>)
    requires Sorted(ps)
    ensures multiset(qs) == multiset(ps) + multiset{p}
  {
    if ps == [] then [p]
    else
      var n := |ps| - 1;
      assert ps == ps[..n] + [ps[n]];
      if Before(ps[n], p) then ps + [p] else Insert(p, ps[..n]) + [ps[n]]
  }

  lemma {:induction false} InsertSorted(p: Point, ps: seq<Point>)
    requires Sorted(ps)
    ensures Sorted(Insert(p, ps))
  {
    if ps != [] {
      var n := |ps| - 1;
      if !Before(ps[n], p) {
        InsertSorted(p, ps[..n]);
        var qs := Insert(p, ps[..n]);
        forall i | 0 <= i < |qs| ensures Before(qs[i], ps[n]) {
          assert qs[i] in multiset(qs);
          if qs[i] != p { assert qs[i] in ps[..n]; }
        }
      }
    }
  }

  /** `points.sort(key=...)`: the same points, in order. */
  function Sort(ps: seq<Point>): (qs: seq<Point>)
    ensures Sorted(qs) && multiset(qs) == multiset(ps)
  {
    if ps == [] then []
    else
      var n := |ps| - 1;
      assert ps == ps[..n] + [ps[n]];
      InsertSorted(ps[n], Sort(ps[..n]));
      Insert(ps[n], Sort(ps[..n]))
  }

  lemma {:induction false} InsertSum(f: Point -> int, p: Point, ps: seq<Point>)
    requires Sorted(ps)
    ensures Sum(f, Insert(p, ps)) == Sum(f, ps) + f(p)
  {
    if ps == [] {
      assert [p][..0] == [];
    } else {
      var n := |ps| - 1;
      if Before(ps[n], p) {
        SumAppend(f, ps, p);
      } else {
        InsertSum(f, p, ps[..n]);
        SumAppend(f, Insert(p, ps[..n]), ps[n]);
      }
    }
  }

  lemma {:induction false} SortSum(f: Point -> int, ps: seq<Point>)
    ensures Sum(f, Sort(ps)) == Sum(f, ps)
  {
    if ps != [] {
      var n := |ps| - 1;
      SortSum(f, ps[..n]);
      InsertSum(f, ps[n], Sort(ps[..n]));
    }
  }

  function PointsOf(intervals: seq<Interval>): seq<Point>
  {
    if intervals == [] then []
    else
      var n := |intervals| - 1;
      PointsOf(intervals[..n]) + [Point(intervals[n].start, 1), Point(intervals[n].end, -1)]
  }

  // ---------------------------------------------------------------- the depth after each point

  function Delta(): Point -> int { (p: Point) => p.delta }

  function Past(t: real): Point -> int { (p: Point) => if p.time <= t then p.delta else 0 }

  function Depth(ps: seq<Point>, k: nat): int
    requires k <= |ps|
  {
    Sum(Delta(), ps[..k])
  }

  lemma DepthNext(ps: seq<Point>, k: nat)
    requires k < |ps|
    ensures Depth(ps, k + 1) == Depth(ps, k) + ps[k].delta
  {
    assert ps[..k + 1] == ps[..k] + [ps[k]];
    SumAppend(Delta(), ps[..k], ps[k]);
  }

  /** The points of the intervals that lie at or before t add up to the net overlap at t. */
  lemma {:induction false} PastSum(intervals: seq<Interval>, t: real)
    ensures Sum(Past(t), PointsOf(intervals)) == NetOverlap(intervals, t)
  {
    if intervals != [] {
      var n := |intervals| - 1;
      var v := intervals[n];
      PastSum(intervals[..n], t);
      var init, a, b := PointsOf(intervals[..n]), Point(v.start, 1), Point(v.end, -1);
      assert PointsOf(intervals) == (init + [a]) + [b];
      SumAppend(Past(t), init + [a], b);
      SumAppend(Past(t), init, a);
    }
  }

  lemma {:induction false} ZeroSum(f: Point -> int, ps: seq<Point>)
    requires forall i {:trigger ps[i]} | 0 <= i < |ps| :: f(ps[i]) == 0
    ensures Sum(f, ps) == 0
  {
    if ps != [] { ZeroSum(f, ps[..|ps| - 1]); }
  }

  /** k of the points lie at or before t. */
  predicate SplitsAt(ps: seq<Point>, k: nat, t: real)
  {
    && k <= |ps| && (forall i {:trigger ps[i]} | 0 <= i < k :: ps[i].time <= t)
    && forall i {:trigger ps[i]} | k <= i < |ps| :: ps[i].time > t
  }

  lemma SplitDepth(ps: seq<Point>, k: nat, t: real)
    requires SplitsAt(ps, k, t)
    ensures Sum(Past(t), ps) == Depth(ps, k)
  {
    assert ps == ps[..k] + ps[k..];
    SumConcat(Past(t), ps[..k], ps[k..]);
    SumEq(Past(t), Delta(), ps[..k]);
    ZeroSum(Past(t), ps[k..]);
  }

  lemma DepthIsNet(intervals: seq<Interval>, k: nat, t: real)
    requires SplitsAt(Sort(PointsOf(intervals)), k, t)
    ensures Depth(Sort(PointsOf(intervals)), k) == NetOverlap(intervals, t)
  {
    PastSum(intervals, t);
    SortSum(Past(t), PointsOf(intervals));
    SplitDepth(Sort(PointsOf(intervals)), k, t);
  }

  lemma {:induction false} SplitExists(ps: seq<Point>, t: real) returns (k: nat)
    requires Sorted(ps)
    ensures SplitsAt(ps, k, t)
  {
    if ps == [] || ps[|ps| - 1].time <= t {
      k := |ps|;
    } else {
      k := SplitExists(ps[..|ps| - 1], t);
      assert forall i {:trigger ps[i]} | 0 <= i < |ps| - 1 :: ps[i] == ps[..|ps| - 1][i];
    }
  }

  ghost predicate IsPeak(ps: seq<Point>, m: int)
  {
    && (forall k: nat {:trigger Depth(ps, k)} | k <= |ps| :: Depth(ps, k) <= m)
    && exists k: nat :: k <= |ps| && Depth(ps, k) == m
  }

  predicate Unit(ps: seq<Point>) { forall i {:trigger ps[i]} | 0 <= i < |ps| :: ps[i].delta == 1 || ps[i].delta == -1 }

  /** Just after a point where the depth peaks, time moves on: ends sort before starts. */
  lemma PeakSplits(ps: seq<Point>, k: nat, m: int)
    requires Sorted(ps) && Unit(ps) && IsPeak(ps, m) && 0 < k <= |ps| && Depth(ps, k) == m
    ensures SplitsAt(ps, k, ps[k - 1].time)
  {
    DepthNext(ps, k - 1);
    if k < |ps| {
      DepthNext(ps, k);
      assert Depth(ps, k - 1) <= m && Depth(ps, k + 1) <= m;
      assert Before(ps[k - 1], ps[k]);
      assert ps[k - 1].time < ps[k].time;
    }
  }

  lemma {:induction false} UnitDeltas(intervals: seq<Interval>)
    ensures Unit(PointsOf(intervals))
  {
    if intervals != [] { UnitDeltas(intervals[..|intervals| - 1]); }
  }

  lemma UnitDeltasSorted(intervals: seq<Interval>)
    ensures Unit(Sort(PointsOf(intervals)))
  {
    var qs, ps := PointsOf(intervals), Sort(PointsOf(intervals));
    UnitDeltas(intervals);
    forall i {:trigger ps[i]} | 0 <= i < |ps|
      ensures ps[i].delta == 1 || ps[i].delta == -1
    {
      assert ps[i] in multiset(ps);
      assert ps[i] in qs;
    }
  }

  /** The peak depth of the sweep is the maximum net overlap over all instants. */
  lemma PeakIsMaximum(intervals: seq<Interval>, m: int)
    requires IsPeak(Sort(PointsOf(intervals)), m)
    ensures IsMaximum(NetOverlapOf(intervals), m)
  {
    var ps, f := Sort(PointsOf(intervals)), NetOverlapOf(intervals);
    forall t
      ensures f(t) <= m
    {
      var k := SplitExists(ps, t);
      DepthIsNet(intervals, k, t);
    }
    var k: nat :| k <= |ps| && Depth(ps, k) == m;
    if k > 0 {
      UnitDeltasSorted(intervals);
      PeakSplits(ps, k, m);
      DepthIsNet(intervals, k, ps[k - 1].time);
      assert f(ps[k - 1].time) == m;
    } else {
      var t := if ps == [] then 0.0 else ps[0].time - 1.0;
      assert SplitsAt(ps, 0, t);
      DepthIsNet(intervals, 0, t);
      assert f(t) == m;
    }
  }

  // ---------------------------------------------------------------- the sweep

  /** For every list of intervals the sweep returns the maximum net overlap. */
  method MaxConcurrency(intervals: seq<Interval>) returns (peak: nat)
    ensures IsMaximum(NetOverlapOf(intervals), peak)
  {
    if intervals == [] {
      assert NetOverlapOf(intervals)(0.0) == 0;
      return 0;
    }
    var points := BothEnds(intervals);
    points := Sort(points);
    peak := Sweep(points);
    PeakIsMaximum(intervals, peak);
  }

  /** The running sum of the deltas, and its peak. */
  method Sweep(points: seq<Point>) returns (peak: nat)
    ensures IsPeak(points, peak)
  {
    var concurrency := 0;
    peak := 0;
    assert Depth(points[..0], 0) == 0;
    for k := 0 to |points|
      invariant concurrency == Depth(points, k) && IsPeak(points[..k], peak)
    {
      DepthNext(points, k);
      PeakNext(points, k, peak);
      concurrency := concurrency + points[k].delta;
      peak := Max(peak, concurrency);
    }
    assert points[..|points|] == points;
  }

  method BothEnds(intervals: seq<Interval>) returns (points: seq<Point>)
    ensures points == PointsOf(intervals)
  {
    points := [];
    for i := 0 to |intervals|
      invariant points == PointsOf(intervals[..i])
    {
      assert intervals[..i + 1][..i] == intervals[..i];
      points := points + [Point(intervals[i].start, 1)];
      points := points + [Point(intervals[i].end, -1)];
    }
    assert intervals[..|intervals|] == intervals;
  }

  /** One more point: the peak is the larger of the old one and the new depth. */
  lemma PeakNext(ps: seq<Point>, k: nat, m: int)
    requires k < |ps| && IsPeak(ps[..k], m)
    ensures IsPeak(ps[..k + 1], Max(m, Depth(ps, k + 1)))
  {
    var before, after, top := ps[..k], ps[..k + 1], Max(m, Depth(ps, k + 1));
    forall j: nat {:trigger Depth(after, j)} | j <= k + 1
      ensures Depth(after, j) == Depth(ps, j) && (j <= k ==> Depth(after, j) == Depth(before, j))
    {
      assert after[..j] == ps[..j];
      if j <= k { assert before[..j] == ps[..j]; }
    }
    if top == m {
      var j: nat :| j <= k && Depth(before, j) == m;
      assert Depth(after, j) == top;
    } else {
      assert Depth(after, k + 1) == top;
    }
  }

  predicate Forward(intervals: seq<Interval>)
  {
    forall i {:trigger intervals[i]} | 0 <= i < |intervals| :: intervals[i].start <= intervals[i].end
  }

  /** When no interval ends before it starts, that is the true maximum overlap of the half-open intervals: ties and
      empty intervals included. */
  lemma SweepIsExact(intervals: seq<Interval>, peak: int)
    requires Forward(intervals) && IsMaximum(NetOverlapOf(intervals), peak)
    ensures IsMaximum(OverlapOf(intervals), peak)
  {
    forall t
      ensures OverlapOf(intervals)(t) == NetOverlapOf(intervals)(t)
    {
      SumEq(Net(t), Covers(t), intervals);
    }
    var t :| NetOverlapOf(intervals)(t) == peak;
    assert OverlapOf(intervals)(t) == peak;
  }

  // ---------------------------------------------------------------- inverted intervals

  /** The interval ends by t and starts after it. */
  predicate InvertedAt(v: Interval, t: real) { v.end <= t < v.start }

  function Inverted(t: real): Interval -> int { (v: Interval) => if InvertedAt(v, t) then 1 else 0 }

  lemma {:induction false} CountZeroIff(f: Interval -> int, xs: seq<Interval>)
    requires forall v :: 0 <= f(v) <= 1
    ensures Sum(f, xs) >= 0
    ensures Sum(f, xs) == 0 <==> forall i {:trigger xs[i]} | 0 <= i < |xs| :: f(xs[i]) == 0
  {
    if xs != [] { CountZeroIff(f, xs[..|xs| - 1]); }
  }

  ghost predicate NoneInverted(intervals: seq<Interval>, t: real)
  {
    forall i {:trigger intervals[i]} | 0 <= i < |intervals| :: !InvertedAt(intervals[i], t)
  }

  lemma NetIsOverlapLessInverted(intervals: seq<Interval>, t: real)
    ensures NetOverlap(intervals, t) <= Overlap(intervals, t)
    ensures NetOverlap(intervals, t) == Overlap(intervals, t) <==> NoneInverted(intervals, t)
  {
    SumPlus(Net(t), Inverted(t), Covers(t), intervals);
    CountZeroIff(Inverted(t), intervals);
  }

  /** Exactly when the sweep finds the true maximum overlap of any list: when at some instant of maximum overlap no
      inverted interval lies around it. */
  lemma SweepExactIff(intervals: seq<Interval>, peak: int, most: int)
    requires IsMaximum(NetOverlapOf(intervals), peak) && IsMaximum(OverlapOf(intervals), most)
    ensures peak <= most
    ensures peak == most <==> exists t :: Overlap(intervals, t) == most && NoneInverted(intervals, t)
  {
    forall t
      ensures NetOverlapOf(intervals)(t) <= OverlapOf(intervals)(t) <= most
      ensures NetOverlap(intervals, t) == Overlap(intervals, t) <==> NoneInverted(intervals, t)
    {
      NetIsOverlapLessInverted(intervals, t);
    }
    var t :| NetOverlapOf(intervals)(t) == peak;
    if peak == most {
      assert Overlap(intervals, t) == most && NoneInverted(intervals, t);
    }
    if u :| Overlap(intervals, u) == most && NoneInverted(intervals, u) {
      assert NetOverlapOf(intervals)(u) == most;
    }
  }

  /** A maximum overlap always exists. */
  lemma MaximumExists(intervals: seq<Interval>) returns (most: nat)
    ensures IsMaximum(OverlapOf(intervals), most)
  {
    forall t
      ensures 0 <= OverlapOf(intervals)(t) <= |intervals|
    {
      OverlapRange(intervals, t);
    }
    most := MaximumBelow(OverlapOf(intervals), |intervals|);
  }

  lemma {:induction false} OverlapRange(intervals: seq<Interval>, t: real)
    ensures 0 <= Overlap(intervals, t) <= |intervals|
  {
    if intervals != [] { OverlapRange(intervals[..|intervals| - 1], t); }
  }

  lemma {:induction false} MaximumBelow(f: real -> int, bound: nat) returns (m: nat)
    requires forall t :: 0 <= f(t) <= bound
    ensures IsMaximum(f, m)
  {
    if t :| f(t) == bound {
      return bound;
    }
    assert f(0.0) < bound;
    m := MaximumBelow(f, bound - 1);
  }

  /** A list the sweep gets wrong: one interval is open at time 2, and the sweep reports none. */
  lemma InvertedIntervalsMislead()
    ensures var intervals := [Interval(4.0, 1.0), Interval(2.0, 3.0)];
      IsMaximum(NetOverlapOf(intervals), 0) && OverlapOf(intervals)(2.0) == 1
  {
    var a, b := Interval(4.0, 1.0), Interval(2.0, 3.0);
    var intervals := [a, b];
    forall t
      ensures NetOverlapOf(intervals)(t) <= 0
    {
      TwoSum(Net(t), a, b);
    }
    TwoSum(Net(0.0), a, b);
    assert NetOverlapOf(intervals)(0.0) == 0;
    TwoSum(Covers(2.0), a, b);
  }

  // ---------------------------------------------------------------- closed intervals

  /** Overlap as the function's documentation states it, both ends included. */
  function ClosedCovers(t: real): Interval -> int { (v: Interval) => if v.start <= t <= v.end then 1 else 0 }

  function ClosedOverlap(intervals: seq<Interval>, t: real): int { Sum(ClosedCovers(t), intervals) }

  function ClosedOverlapOf(intervals: seq<Interval>): real -> int { (t: real) => ClosedOverlap(intervals, t) }

  /** The instant belongs to the closed interval, and only as its end. */
  predicate EndOf(v: Interval, t: real) { v.start <= t == v.end }

  function EndsAt(t: real): Interval -> int { (v: Interval) => if EndOf(v, t) then 1 else 0 }

  ghost predicate NoneEnds(intervals: seq<Interval>, t: real)
  {
    forall i {:trigger intervals[i]} | 0 <= i < |intervals| :: !EndOf(intervals[i], t)
  }

  lemma ClosedIsOverlapAndEnds(intervals: seq<Interval>, t: real)
    ensures Overlap(intervals, t) <= ClosedOverlap(intervals, t)
    ensures Overlap(intervals, t) == ClosedOverlap(intervals, t) <==> NoneEnds(intervals, t)
  {
    SumPlus(Covers(t), EndsAt(t), ClosedCovers(t), intervals);
    CountZeroIff(EndsAt(t), intervals);
  }

  /** Exactly when the sweep finds the maximum overlap of the closed intervals of any list: when at some instant of
      maximum closed overlap no interval ends and no inverted one lies around it. */
  lemma SweepClosedIff(intervals: seq<Interval>, peak: int, most: int)
    requires IsMaximum(NetOverlapOf(intervals), peak) && IsMaximum(ClosedOverlapOf(intervals), most)
    ensures peak <= most
    ensures peak == most
       <==> exists t :: ClosedOverlap(intervals, t) == most && NoneEnds(intervals, t) && NoneInverted(intervals, t)
  {
    forall t
      ensures NetOverlapOf(intervals)(t) <= ClosedOverlapOf(intervals)(t) <= most
      ensures NetOverlap(intervals, t) == ClosedOverlap(intervals, t)
         <==> NoneEnds(intervals, t) && NoneInverted(intervals, t)
    {
      ClosedIsOverlapAndEnds(intervals, t);
      NetIsOverlapLessInverted(intervals, t);
    }
    var t :| NetOverlapOf(intervals)(t) == peak;
    if peak == most {
      assert ClosedOverlap(intervals, t) == most && NoneEnds(intervals, t) && NoneInverted(intervals, t);
    }
    if u :| ClosedOverlap(intervals, u) == most && NoneEnds(intervals, u) && NoneInverted(intervals, u) {
      assert NetOverlapOf(intervals)(u) == most;
    }
  }

  /** Back-to-back operations: their closed intervals overlap at time 1, and the sweep keeps them apart. */
  lemma BackToBackNotConcurrent()
    ensures var intervals := [Interval(0.0, 1.0), Interval(1.0, 2.0)];
      IsMaximum(NetOverlapOf(intervals), 1) && IsMaximum(ClosedOverlapOf(intervals), 2)
  {
    var a, b := Interval(0.0, 1.0), Interval(1.0, 2.0);
    var intervals := [a, b];
    forall t
      ensures NetOverlapOf(intervals)(t) <= 1 && ClosedOverlapOf(intervals)(t) <= 2
    {
      TwoSum(Net(t), a, b);
      TwoSum(ClosedCovers(t), a, b);
    }
    TwoSum(Net(0.0), a, b);
    assert NetOverlapOf(intervals)(0.0) == 1;
    TwoSum(ClosedCovers(1.0), a, b);
    assert ClosedOverlapOf(intervals)(1.0) == 2;
  }

  lemma TwoSum<X>(f: X -> int, a: X, b: X)
    ensures Sum(f, [a, b]) == f(a) + f(b)
  {
    assert [a, b] == [a] + [b];
    SumAppend(f, [a], b);
    assert [a] == [] + [a];
    SumAppend(f, [], a);
  }
}
