/** What becomes of single requests: their limits, their lengths, and their failures (src/kvbench/servers/proxy.py). */
module ProxyRequests {
  import opened Wrappers
  import opened Proxy
  import opened ProxyRuns
  import opened RoundRobin

  // ---------------------------------------------------------------- every request keeps its limit

  /** The arrivals of a run, in order. */
  function Arrivals(events: seq<Event>): seq<Event>
  {
    if events == [] then []
    else
      var n := |events| - 1;
      Arrivals(events[..n]) + if events[n].Arrive? then [events[n]] else []
  }

  /** The limit is max_tokens, or 100 when that is missing or 0, or nothing when it is negative. */
  predicate IsLimit(maxTokens: Option<int>, limit: int)
  {
    && (maxTokens.None? || maxTokens.value == 0 ==> limit == 100)
    && (maxTokens.Some? && maxTokens.value > 0 ==> limit == maxTokens.value)
    && (maxTokens.Some? && maxTokens.value < 0 ==> limit == 0)
  }

  predicate CameAs(r: Request, e: Event)
  {
    e.Arrive? && r.streaming == e.streaming && IsLimit(e.maxTokens, r.maxTokens)
  }

  predicate AllCameAs(requests: seq<Request>, arrivals: seq<Event>)
  {
    && |requests| == |arrivals|
    && forall i {:trigger requests[i]} | 0 <= i < |requests| :: CameAs(requests[i], arrivals[i])
  }

  /** No step but an arrival adds a request, and none changes what a request came with. */
  lemma StepKeepsLimits(s: State, e: Event, i: nat)
    requires i < |s.requests|
    ensures |Step(s, e).requests| == |s.requests| + One(e.Arrive?)
    ensures Step(s, e).requests[i].maxTokens == s.requests[i].maxTokens
    ensures Step(s, e).requests[i].streaming == s.requests[i].streaming
  {
    if e.Resume? && e.i < |s.requests| && Handles(s, s.requests[e.i].phase) { ResumeKeepsLimits(s, e.i, i); }
  }

  lemma ResumeKeepsLimits(s: State, j: nat, i: nat)
    requires j < |s.requests| && i < |s.requests| && Handles(s, s.requests[j].phase)
    ensures |ResumeStep(s, j).requests| == |s.requests|
    ensures ResumeStep(s, j).requests[i].maxTokens == s.requests[i].maxTokens
    ensures ResumeStep(s, j).requests[i].streaming == s.requests[i].streaming
  {
  }

  lemma StepAddsOne(s: State, e: Event)
    ensures |Step(s, e).requests| == |s.requests| + One(e.Arrive?)
    ensures e.Arrive? ==> CameAs(Step(s, e).requests[|s.requests|], e)
  {
    if !e.Arrive? && s.requests != [] { StepKeepsLimits(s, e, 0); }
  }

  /** Request i of any run is its i-th arrival, with the limit that arrival asks for. */
  lemma {:induction false} RequestsAreArrivals(n: nat, m: nat, events: seq<Event>)
    ensures AllCameAs(Run(Initial(n, m), events).requests, Arrivals(events))
  {
    if events != [] {
      var k := |events| - 1;
      RequestsAreArrivals(n, m, events[..k]);
      var s, e := Run(Initial(n, m), events[..k]), events[k];
      var t := Step(s, e);
      assert Run(Initial(n, m), events) == t;
      StepAddsOne(s, e);
      forall i: nat {:trigger t.requests[i]} | i < |t.requests|
        ensures CameAs(t.requests[i], Arrivals(events)[i])
      {
        if i < |s.requests| {
          StepKeepsLimits(s, e, i);
          assert CameAs(s.requests[i], Arrivals(events[..k])[i]);
        }
      }
    }
  }

  /** In every run, a request that finished its decode phase has generated exactly the tokens it asked for: max_tokens,
      or 100 when that is missing or 0. */
  lemma GeneratesWhatWasAsked(n: nat, m: nat, events: seq<Event>, i: nat)
    requires i < |Run(Initial(n, m), events).requests|
    ensures |Arrivals(events)| == |Run(Initial(n, m), events).requests|
    ensures var r, e := Run(Initial(n, m), events).requests[i], Arrivals(events)[i];
      e.Arrive? && (r.decoded.Some? || r.phase.Succeeded? ==> IsLimit(e.maxTokens, r.generated))
  {
    RequestsAreArrivals(n, m, events);
    TokensComplete(n, m, events, i);
    assert CameAs(Run(Initial(n, m), events).requests[i], Arrivals(events)[i]);
  }

  // ---------------------------------------------------------------- how long an undisturbed request takes

  /** A request on a proxy of one endpoint of each kind, k suspension points after its arrival. */
  function After(streaming: bool, maxTokens: Option<int>, k: nat): State
  {
    if k == 0 then Step(Initial(1, 1), Arrive(streaming, maxTokens))
    else Step(After(streaming, maxTokens, k - 1), Resume(0))
  }

  predicate OneHealthy(servers: seq<Endpoint>) { |servers| == 1 && servers[0].healthy }

  /** The request is at this point of its life, having generated so many tokens. */
  predicate IsAt(s: State, streaming: bool, max: int, phase: Phase, generated: int)
  {
    && |s.requests| == 1 && OneHealthy(s.prefill) && OneHealthy(s.decode)
    && var r := s.requests[0];
       r.streaming == streaming && r.maxTokens == max && r.phase == phase && r.generated == generated
  }

  lemma OnlyChoice(servers: seq<Endpoint>, index: nat)
    requires OneHealthy(servers)
    ensures Select(servers, index) == Some(0)
  {
    assert servers[..0] == [];
  }

  lemma Arrived(streaming: bool, maxTokens: Option<int>, max: nat)
    requires IsLimit(maxTokens, max)
    ensures IsAt(After(streaming, maxTokens, 0), streaming, max, Prefilling(0), 0)
  {
    OnlyChoice(Fresh(1), 0);
  }

  lemma PlainRouted(maxTokens: Option<int>, max: nat)
    requires IsLimit(maxTokens, max)
    ensures IsAt(After(false, maxTokens, 1), false, max, if max == 0 then Succeeded else Decoding(0, max), 0)
  {
    Arrived(false, maxTokens, max);
    OnlyChoice(After(false, maxTokens, 0).decode, After(false, maxTokens, 0).decodeIndex);
  }

  /** Each sleep of a plain request generates a token, and the last one ends it. */
  lemma PlainGenerates(s: State, max: nat, done: nat)
    requires done < max && IsAt(s, false, max, Decoding(0, max - done), done)
    ensures IsAt(Step(s, Resume(0)), false, max, if done + 1 == max then Succeeded else Decoding(0, max - done - 1),
                 done + 1)
  {
  }

  lemma {:induction false} PlainAt(maxTokens: Option<int>, max: nat, done: nat)
    requires IsLimit(maxTokens, max) && done <= max
    ensures IsAt(After(false, maxTokens, 1 + done), false, max,
                 if done == max then Succeeded else Decoding(0, max - done), done)
    decreases done
  {
    hide Step, IsAt, IsLimit;
    if done == 0 {
      PlainRouted(maxTokens, max);
    } else {
      PlainAt(maxTokens, max, done - 1);
      PlainGenerates(After(false, maxTokens, done), max, done - 1);
    }
  }

  /** A plain request is answered once its prefill and each of its tokens have had their sleep, not before. */
  lemma PlainTakes(maxTokens: Option<int>, max: nat, k: nat)
    requires IsLimit(maxTokens, max) && k <= 1 + max
    ensures After(false, maxTokens, k).requests != []
    ensures After(false, maxTokens, k).requests[0].phase.Succeeded? <==> k == 1 + max
  {
    hide Step, After, IsLimit;
    if k == 0 { Arrived(false, maxTokens, max); } else { PlainAt(maxTokens, max, k - 1); }
  }

  lemma StreamRouted(maxTokens: Option<int>, max: nat)
    requires IsLimit(maxTokens, max)
    ensures IsAt(After(true, maxTokens, 1), true, max, StartYield(0), 0)
    ensures IsAt(After(true, maxTokens, 2), true, max, if max == 0 then EndYield(2) else Decoding(0, max), 0)
  {
    Arrived(true, maxTokens, max);
    OnlyChoice(After(true, maxTokens, 0).decode, After(true, maxTokens, 0).decodeIndex);
  }

  /** A token of a stream is slept for and then yielded. */
  lemma StreamGenerates(s: State, max: nat, done: nat)
    requires done < max && IsAt(s, true, max, Decoding(0, max - done), done)
    ensures IsAt(Step(s, Resume(0)), true, max, TokenYield(0, max - done - 1), done + 1)
  {
  }

  lemma StreamGoesOn(s: State, max: nat, done: nat)
    requires done <= max && IsAt(s, true, max, TokenYield(0, max - done), done)
    ensures IsAt(Step(s, Resume(0)), true, max, if done == max then EndYield(2) else Decoding(0, max - done), done)
  {
  }

  lemma {:induction false} StreamAt(maxTokens: Option<int>, max: nat, done: nat)
    requires IsLimit(maxTokens, max) && done <= max
    ensures IsAt(After(true, maxTokens, 2 + 2 * done), true, max,
                 if done == max then EndYield(2) else Decoding(0, max - done), done)
    ensures done > 0 ==> IsAt(After(true, maxTokens, 1 + 2 * done), true, max, TokenYield(0, max - done), done)
    decreases done
  {
    hide Step, IsAt, IsLimit;
    if done == 0 {
      StreamRouted(maxTokens, max);
    } else {
      StreamAt(maxTokens, max, done - 1);
      StreamGenerates(After(true, maxTokens, 2 * done), max, done - 1);
      StreamGoesOn(After(true, maxTokens, 1 + 2 * done), max, done);
    }
  }

  lemma StreamCloses(maxTokens: Option<int>, max: nat)
    requires IsLimit(maxTokens, max)
    ensures IsAt(After(true, maxTokens, 3 + 2 * max), true, max, EndYield(1), max)
    ensures IsAt(After(true, maxTokens, 4 + 2 * max), true, max, Succeeded, max)
  {
    StreamAt(maxTokens, max, max);
  }

  /** A stream is suspended once in its prefill, at its start chunk, twice for each token, and at two closing chunks. */
  lemma StreamTakes(maxTokens: Option<int>, max: nat, k: nat)
    requires IsLimit(maxTokens, max) && k <= 4 + 2 * max
    ensures After(true, maxTokens, k).requests != []
    ensures After(true, maxTokens, k).requests[0].phase.Succeeded? <==> k == 4 + 2 * max
  {
    hide Step, After, IsLimit;
    if k == 0 {
      Arrived(true, maxTokens, max);
    } else if k == 1 {
      StreamRouted(maxTokens, max);
    } else if k <= 2 + 2 * max {
      var done := k / 2 - if k % 2 == 0 then 1 else 0;
      StreamAt(maxTokens, max, done);
      assert k == 2 + 2 * done || k == 1 + 2 * done;
    } else {
      StreamCloses(maxTokens, max);
    }
  }

  // ---------------------------------------------------------------- refusals

  predicate AllDown(servers: seq<Endpoint>)
  {
    forall e {:trigger servers[e]} | 0 <= e < |servers| :: !servers[e].healthy
  }

  /** With every prefill server down a plain request fails at once.  A stream first yields its error, and fails when
      that is taken; closed before, it does not count as a failure. */
  lemma RefusedWithoutPrefill(s: State, streaming: bool, maxTokens: Option<int>)
    requires AllDown(s.prefill)
    ensures var t, i := Step(s, Arrive(streaming, maxTokens)), |s.requests|;
      && |t.requests| == i + 1 && t.prefill == s.prefill && t.decode == s.decode && t.prefillIndex == s.prefillIndex
      && t.stats.total == s.stats.total + 1 && t.stats.failed == s.stats.failed + One(!streaming)
      && t.requests[i].phase == (if streaming then FailYield else Failed)
      && (streaming ==> FailsWhenTaken(t, i))
  {
    SelectionFails(s.prefill, s.prefillIndex);
  }

  predicate FailsWhenTaken(s: State, i: nat)
    requires i < |s.requests|
  {
    && Step(s, Resume(i)).requests[i].phase.Failed? && Step(s, Resume(i)).stats.failed == s.stats.failed + 1
    && Step(s, Cancel(i)).requests[i].phase.Cancelled? && Step(s, Cancel(i)).stats.failed == s.stats.failed
  }

  /** With every decode server down the same happens after the prefill phase, which counts as served. */
  lemma RefusedWithoutDecode(s: State, i: nat)
    requires i < |s.requests| && s.requests[i].phase.Prefilling? && s.requests[i].phase.p < |s.prefill|
    requires AllDown(s.decode)
    ensures var t, streaming := Step(s, Resume(i)), s.requests[i].streaming;
      && |t.requests| == |s.requests| && t.decode == s.decode && t.decodeIndex == s.decodeIndex
      && t.stats.prefill == s.stats.prefill + 1 && t.stats.failed == s.stats.failed + One(!streaming)
      && t.requests[i].phase == (if streaming then FailYield else Failed)
      && (streaming ==> FailsWhenTaken(t, i))
  {
    SelectionFails(s.decode, s.decodeIndex);
  }
}
