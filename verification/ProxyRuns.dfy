/** What every reachable state of the proxy satisfies, with cancellation allowed at every suspension point. */
module ProxyRuns {
  import opened Wrappers
  import opened OpenAiCompat
  import opened Sums
  import opened Proxy

  // ---------------------------------------------------------------- one request changes

  /** A state that differs from s in one request and in the counters accordingly. */
  ghost predicate Moved(s: State, i: nat, t: State)
  {
    && i < |s.requests| && |t.requests| == |s.requests| && t.requests == s.requests[i := t.requests[i]]
    && |t.prefill| == |s.prefill| && |t.decode| == |s.decode| && t.stats.total == s.stats.total
    && forall c :: Count(t, c) - Count(s, c) == Share(c, t.requests[i]) - Share(c, s.requests[i])
  }

  lemma MovedKeeps(s: State, i: nat, t: State)
    requires Inv(s) && Moved(s, i, t) && RequestOk(t, t.requests[i])
    ensures Inv(t)
  {
    forall c
      ensures Count(t, c) == Sum(ShareOf(c), t.requests)
    {
      SumUpdate(ShareOf(c), s.requests, i, t.requests[i]);
    }
    forall j {:trigger t.requests[j]} | 0 <= j < |t.requests|
      ensures RequestOk(t, t.requests[j])
    {
      if j != i { assert RequestOk(s, s.requests[j]); }
    }
  }

  /** Phases that hold no connection and have not ended. */
  predicate Idle(ph: Phase) { ph.FailYield? || ph.StartYield? || ph.EndYield? }

  lemma EndPrefillKeeps(s: State, i: nat)
    requires Inv(s) && i < |s.requests| && s.requests[i].phase.Prefilling? && s.requests[i].decoded.None?
    ensures RequestOk(s, s.requests[i])
    ensures var t := EndPrefill(s, i, s.requests[i].phase.p);
      Inv(t) && t.requests[i] == s.requests[i].(prefilled := Some(s.requests[i].phase.p), phase := FailYield)
  {
    assert RequestOk(s, s.requests[i]);
    MovedKeeps(s, i, EndPrefill(s, i, s.requests[i].phase.p));
  }

  lemma SucceedKeeps(s: State, i: nat)
    requires Inv(s) && i < |s.requests| && s.requests[i].phase.EndYield?
    ensures Inv(Succeed(s, i))
  {
    assert RequestOk(s, s.requests[i]);
    MovedKeeps(s, i, Succeed(s, i));
  }

  lemma FailKeeps(s: State, i: nat)
    requires Inv(s) && i < |s.requests| && Idle(s.requests[i].phase)
    ensures Inv(Fail(s, i))
  {
    assert RequestOk(s, s.requests[i]);
    MovedKeeps(s, i, Fail(s, i));
  }

  lemma SetPhaseKeeps(s: State, i: nat, ph: Phase)
    requires Inv(s) && i < |s.requests| && RequestOk(s, s.requests[i].(phase := ph))
    requires forall c :: Share(c, s.requests[i].(phase := ph)) == Share(c, s.requests[i])
    ensures Inv(SetPhase(s, i, ph))
  {
    MovedKeeps(s, i, SetPhase(s, i, ph));
  }

  /** Count the request at a decode endpoint it holds, and give the connection back. */
  lemma EndDecodeKeeps(s: State, i: nat, d: nat)
    requires Inv(s) && i < |s.requests| && HoldsDecode(s.requests[i]) && s.requests[i].phase.d == d && d < |s.decode|
    requires s.requests[i].decoded.None? && s.requests[i].generated == s.requests[i].maxTokens
    ensures Inv(EndDecode(s, i, d))
  {
    var r := s.requests[i];
    assert RequestOk(s, r);
    var t := s.(decode := AddActive(AddServed(s.decode, d), d, -1), stats := s.stats.(decode := s.stats.decode + 1),
                requests := s.requests[i := r.(decoded := Some(d), phase := EndYield(2))]);
    MovedKeeps(s, i, t);
    if !r.streaming { SucceedKeeps(t, i); }
  }

  lemma BeginDecodeKeeps(s: State, i: nat, d: nat)
    requires Inv(s) && i < |s.requests| && Idle(s.requests[i].phase) && d < |s.decode|
    requires s.requests[i].prefilled.Some? && s.requests[i].decoded.None? && s.requests[i].generated == 0
    ensures Inv(BeginDecode(s, i, d))
  {
    var r := s.requests[i];
    assert RequestOk(s, r);
    var t := SetPhase(s, i, Decoding(d, r.maxTokens)).(decode := AddActive(s.decode, d, 1));
    MovedKeeps(s, i, t);
    if r.maxTokens == 0 { EndDecodeKeeps(t, i, d); }
  }

  /** The picks and indices are no part of the balance. */
  lemma PickKeeps(s: State, index: nat, picks: seq<nat>)
    requires Inv(s)
    ensures Inv(s.(decodeIndex := index, decodePicks := picks))
  {
    var t := s.(decodeIndex := index, decodePicks := picks);
    forall c ensures Count(t, c) == Sum(ShareOf(c), t.requests) { assert Count(t, c) == Count(s, c); }
    forall j {:trigger t.requests[j]} | 0 <= j < |t.requests| ensures RequestOk(t, t.requests[j]) {
      assert RequestOk(s, s.requests[j]);
    }
  }

  lemma StartStreamKeeps(s: State, i: nat, d: nat)
    requires Inv(s) && i < |s.requests| && s.requests[i].phase == FailYield && d < |s.decode|
    requires s.requests[i].prefilled.Some? && s.requests[i].decoded.None?
    ensures Inv(SetPhase(s, i, StartYield(d)))
  {
    assert RequestOk(s, s.requests[i]);
    SetPhaseKeeps(s, i, StartYield(d));
  }

  lemma NoDecodeServerKeeps(s: State, i: nat)
    requires Inv(s) && i < |s.requests| && s.requests[i].phase == FailYield
    ensures Inv(if s.requests[i].streaming then SetPhase(s, i, FailYield) else Fail(s, i))
  {
    if s.requests[i].streaming {
      assert s.requests[i := s.requests[i].(phase := FailYield)] == s.requests;
    } else {
      FailKeeps(s, i);
    }
  }

  lemma DecodeServerKeeps(s: State, i: nat, d: nat)
    requires Inv(s) && i < |s.requests| && s.requests[i].phase == FailYield && d < |s.decode|
    requires s.requests[i].prefilled.Some? && s.requests[i].decoded.None?
    ensures Inv(if s.requests[i].streaming then SetPhase(s, i, StartYield(d)) else BeginDecode(s, i, d))
  {
    assert RequestOk(s, s.requests[i]);
    if s.requests[i].streaming { StartStreamKeeps(s, i, d); } else { BeginDecodeKeeps(s, i, d); }
  }

  lemma RouteKeeps(s: State, i: nat)
    requires Inv(s) && i < |s.requests| && s.requests[i].phase == FailYield
    requires s.requests[i].prefilled.Some? && s.requests[i].decoded.None?
    ensures Inv(Route(s, i))
  {
    hide Inv;
    var pick := Select(s.decode, s.decodeIndex);
    if pick.None? {
      NoDecodeServerKeeps(s, i);
    } else {
      PickKeeps(s, s.decodeIndex + 1, s.decodePicks + [pick.value]);
      var t := s.(decodeIndex := s.decodeIndex + 1, decodePicks := s.decodePicks + [pick.value]);
      DecodeServerKeeps(t, i, pick.value);
    }
  }

  lemma GenerateKeeps(s: State, i: nat)
    requires Inv(s) && i < |s.requests| && s.requests[i].phase.Decoding?
    ensures Inv(Generate(s, i)) && s.requests[i].decoded.None? && s.requests[i].phase.d < |s.decode|
  {
    assert RequestOk(s, s.requests[i]);
    MovedKeeps(s, i, Generate(s, i));
  }

  lemma ResumeDecodingKeeps(s: State, i: nat)
    requires Inv(s) && i < |s.requests| && s.requests[i].phase.Decoding?
    ensures Inv(Step(s, Resume(i)))
  {
    var r, t := s.requests[i], Generate(s, i);
    GenerateKeeps(s, i);
    assert RequestOk(t, t.requests[i]);
    if r.streaming {
      SetPhaseKeeps(t, i, TokenYield(r.phase.d, t.requests[i].phase.remaining));
    } else if r.phase.remaining <= 1 {
      EndDecodeKeeps(t, i, r.phase.d);
    }
  }

  lemma ResumeTokenKeeps(s: State, i: nat)
    requires Inv(s) && i < |s.requests| && s.requests[i].phase.TokenYield?
    ensures Inv(Step(s, Resume(i)))
  {
    var r := s.requests[i];
    assert RequestOk(s, r);
    var d, n := r.phase.d, r.phase.remaining;
    if n == 0 { EndDecodeKeeps(s, i, d); } else { SetPhaseKeeps(s, i, Decoding(d, n)); }
  }

  lemma ResumeKeeps(s: State, i: nat)
    requires Inv(s) && i < |s.requests|
    ensures Inv(Step(s, Resume(i)))
  {
    var r := s.requests[i];
    assert RequestOk(s, r);
    match r.phase
    case Prefilling(p) =>
      EndPrefillKeeps(s, i);
      RouteKeeps(EndPrefill(s, i, p), i);
    case FailYield => FailKeeps(s, i);
    case StartYield(d) => BeginDecodeKeeps(s, i, d);
    case Decoding(_, _) => ResumeDecodingKeeps(s, i);
    case TokenYield(_, _) => ResumeTokenKeeps(s, i);
    case EndYield(n) => if n <= 1 { SucceedKeeps(s, i); } else { SetPhaseKeeps(s, i, EndYield(n - 1)); }
    case _ =>
  }

  lemma CancelPrefillKeeps(s: State, i: nat)
    requires Inv(s) && i < |s.requests| && s.requests[i].phase.Prefilling?
    ensures Inv(Step(s, Cancel(i)))
  {
    assert RequestOk(s, s.requests[i]);
    MovedKeeps(s, i, Step(s, Cancel(i)));
  }

  lemma CancelDecodingKeeps(s: State, i: nat)
    requires Inv(s) && i < |s.requests| && s.requests[i].phase.Decoding?
    ensures Inv(Step(s, Cancel(i)))
  {
    assert RequestOk(s, s.requests[i]);
    MovedKeeps(s, i, Step(s, Cancel(i)));
  }

  lemma CancelKeeps(s: State, i: nat)
    requires Inv(s) && i < |s.requests|
    ensures Inv(Step(s, Cancel(i)))
  {
    assert RequestOk(s, s.requests[i]);
    match s.requests[i].phase
    case Prefilling(_) => CancelPrefillKeeps(s, i);
    case Decoding(_, _) => CancelDecodingKeeps(s, i);
    case TokenYield(d, _) => SetPhaseKeeps(s, i, Orphaned(d));
    case FailYield => SetPhaseKeeps(s, i, Cancelled);
    case StartYield(_) => SetPhaseKeeps(s, i, Cancelled);
    case EndYield(_) => SetPhaseKeeps(s, i, Cancelled);
    case _ =>
  }

  lemma FinaliseKeeps(s: State, i: nat)
    requires Inv(s) && i < |s.requests|
    ensures Inv(Step(s, Finalise(i)))
  {
    assert RequestOk(s, s.requests[i]);
    MovedKeeps(s, i, Step(s, Finalise(i)));
  }

  lemma AppendKeeps(s: State, r: Request, t: State)
    requires Inv(s) && t.requests == s.requests + [r] && t.stats.total == s.stats.total + 1
    requires |t.prefill| == |s.prefill| && |t.decode| == |s.decode| && RequestOk(t, r)
    requires forall c :: Count(t, c) - Count(s, c) == Share(c, r)
    ensures Inv(t)
  {
  }

  lemma RefuseKeeps(s: State, streaming: bool, max: nat)
    requires Inv(s)
    ensures Inv(Refuse(s, streaming, max))
  {
    var r := Request(streaming, max, if streaming then FailYield else Failed, 0, None, None);
    AppendKeeps(s, r, Refuse(s, streaming, max));
  }

  lemma AcceptKeeps(s: State, p: nat, streaming: bool, max: nat)
    requires Inv(s) && p < |s.prefill|
    ensures Inv(Accept(s, p, streaming, max))
  {
    AppendKeeps(s, Request(streaming, max, Prefilling(p), 0, None, None), Accept(s, p, streaming, max));
  }

  lemma ArriveKeeps(s: State, streaming: bool, maxTokens: Option<int>)
    requires Inv(s)
    ensures Inv(ArriveStep(s, streaming, maxTokens))
  {
    var pick, max := Select(s.prefill, s.prefillIndex), TokensToGenerate(maxTokens);
    if pick.None? { RefuseKeeps(s, streaming, max); } else { AcceptKeeps(s, pick.value, streaming, max); }
  }

  /** Health changes touch no counter. */
  lemma HealthKeeps(s: State, e: Event)
    requires Inv(s) && (e.SetPrefillHealth? || e.SetDecodeHealth?)
    ensures Inv(Step(s, e))
  {
    var t := Step(s, e);
    forall c ensures Count(t, c) == Sum(ShareOf(c), t.requests) { assert Count(t, c) == Count(s, c); }
    forall j {:trigger t.requests[j]} | 0 <= j < |t.requests| ensures RequestOk(t, t.requests[j]) {
      assert RequestOk(s, s.requests[j]);
    }
  }

  lemma StepKeeps(s: State, e: Event)
    requires Inv(s)
    ensures Inv(Step(s, e))
  {
    hide Inv;
    match e
    case Arrive(streaming, maxTokens) => ArriveKeeps(s, streaming, maxTokens);
    case Resume(i) => if i < |s.requests| { ResumeKeeps(s, i); }
    case Cancel(i) => if i < |s.requests| { CancelKeeps(s, i); }
    case Finalise(i) => if i < |s.requests| { FinaliseKeeps(s, i); }
    case SetPrefillHealth(_, _) => HealthKeeps(s, e);
    case SetDecodeHealth(_, _) => HealthKeeps(s, e);
  }

  lemma {:induction false} RunKeeps(n: nat, m: nat, events: seq<Event>)
    ensures Inv(Run(Initial(n, m), events))
  {
    if events != [] {
      var k := |events| - 1;
      RunKeeps(n, m, events[..k]);
      StepKeeps(Run(Initial(n, m), events[..k]), events[k]);
    }
  }

  /** Every request counted as decoded has generated exactly its tokens, and no request ever more. */
  lemma TokensComplete(n: nat, m: nat, events: seq<Event>, i: nat)
    requires i < |Run(Initial(n, m), events).requests|
    ensures var r := Run(Initial(n, m), events).requests[i];
      r.generated <= r.maxTokens && (r.decoded.Some? || r.phase.Succeeded? ==> r.generated == r.maxTokens)
  {
    RunKeeps(n, m, events);
    assert RequestOk(Run(Initial(n, m), events), Run(Initial(n, m), events).requests[i]);
  }

  // ---------------------------------------------------------------- adding up over endpoints

  function ActiveOf(): Endpoint -> int { (e: Endpoint) => e.active }

  function TotalOf(): Endpoint -> int { (e: Endpoint) => e.total }

  /** What a request contributes to the first n endpoints together. */
  function ShareBelow(f: nat -> Counter, n: nat, r: Request): int
  {
    if n == 0 then 0 else ShareBelow(f, n - 1, r) + Share(f(n - 1), r)
  }

  function Below(f: nat -> Counter, n: nat): Request -> int { (r: Request) => ShareBelow(f, n, r) }

  lemma {:induction false} BelowZero(f: nat -> Counter, requests: seq<Request>)
    ensures Sum(Below(f, 0), requests) == 0
  {
    if requests != [] { BelowZero(f, requests[..|requests| - 1]); }
  }

  /** Sum over endpoints of a sum over requests, the other way round. */
  lemma {:induction false} SumsSwap(s: State, servers: seq<Endpoint>, g: Endpoint -> int, f: nat -> Counter)
    requires forall e: nat {:trigger servers[e]} | e < |servers| :: g(servers[e]) == Sum(ShareOf(f(e)), s.requests)
    ensures Sum(g, servers) == Sum(Below(f, |servers|), s.requests)
    decreases |servers|
  {
    if servers == [] {
      BelowZero(f, s.requests);
    } else {
      var n := |servers| - 1;
      SumsSwap(s, servers[..n], g, f);
      assert g(servers[n]) == Sum(ShareOf(f(n)), s.requests);
      SumPlus(Below(f, n), ShareOf(f(n)), Below(f, n + 1), s.requests);
    }
  }

  function PrefillActives(): nat -> Counter { (e: nat) => PrefillActive(e) }

  function PrefillTotals(): nat -> Counter { (e: nat) => PrefillTotal(e) }

  function DecodeActives(): nat -> Counter { (e: nat) => DecodeActive(e) }

  function DecodeTotals(): nat -> Counter { (e: nat) => DecodeTotal(e) }

  lemma {:induction false} BelowPrefillActive(n: nat, r: Request)
    ensures ShareBelow(PrefillActives(), n, r) == One(HoldsPrefill(r) && r.phase.p < n)
  {
    if n > 0 { BelowPrefillActive(n - 1, r); }
  }

  lemma {:induction false} BelowDecodeActive(n: nat, r: Request)
    ensures ShareBelow(DecodeActives(), n, r) == One(HoldsDecode(r) && r.phase.d < n)
  {
    if n > 0 { BelowDecodeActive(n - 1, r); }
  }

  lemma {:induction false} BelowPrefillTotal(n: nat, r: Request)
    ensures ShareBelow(PrefillTotals(), n, r) == One(r.prefilled.Some? && r.prefilled.value < n)
  {
    if n > 0 { BelowPrefillTotal(n - 1, r); }
  }

  lemma {:induction false} BelowDecodeTotal(n: nat, r: Request)
    ensures ShareBelow(DecodeTotals(), n, r) == One(r.decoded.Some? && r.decoded.value < n)
  {
    if n > 0 { BelowDecodeTotal(n - 1, r); }
  }

  function InPrefill(): Request -> int { (r: Request) => One(HoldsPrefill(r)) }

  function InDecode(): Request -> int { (r: Request) => One(HoldsDecode(r)) }

  lemma PrefillEndpointsAddUp(s: State)
    requires Inv(s)
    ensures Sum(ActiveOf(), s.prefill) == Sum(InPrefill(), s.requests)
    ensures Sum(TotalOf(), s.prefill) == s.stats.prefill
  {
    forall e: nat {:trigger s.prefill[e]} | e < |s.prefill|
      ensures s.prefill[e].active == Sum(ShareOf(PrefillActive(e)), s.requests)
      ensures s.prefill[e].total == Sum(ShareOf(PrefillTotal(e)), s.requests)
    {
      assert Count(s, PrefillActive(e)) == s.prefill[e].active && Count(s, PrefillTotal(e)) == s.prefill[e].total;
    }
    SumsSwap(s, s.prefill, ActiveOf(), PrefillActives());
    SumsSwap(s, s.prefill, TotalOf(), PrefillTotals());
    forall i {:trigger s.requests[i]} | 0 <= i < |s.requests|
      ensures Below(PrefillActives(), |s.prefill|)(s.requests[i]) == InPrefill()(s.requests[i])
      ensures Below(PrefillTotals(), |s.prefill|)(s.requests[i]) == ShareOf(PrefillRequests)(s.requests[i])
    {
      assert RequestOk(s, s.requests[i]);
      BelowPrefillActive(|s.prefill|, s.requests[i]);
      BelowPrefillTotal(|s.prefill|, s.requests[i]);
    }
    SumEq(Below(PrefillActives(), |s.prefill|), InPrefill(), s.requests);
    SumEq(Below(PrefillTotals(), |s.prefill|), ShareOf(PrefillRequests), s.requests);
    assert Count(s, PrefillRequests) == s.stats.prefill;
  }

  lemma DecodeEndpointsAddUp(s: State)
    requires Inv(s)
    ensures Sum(ActiveOf(), s.decode) == Sum(InDecode(), s.requests)
    ensures Sum(TotalOf(), s.decode) == s.stats.decode
  {
    forall e: nat {:trigger s.decode[e]} | e < |s.decode|
      ensures s.decode[e].active == Sum(ShareOf(DecodeActive(e)), s.requests)
      ensures s.decode[e].total == Sum(ShareOf(DecodeTotal(e)), s.requests)
    {
      assert Count(s, DecodeActive(e)) == s.decode[e].active && Count(s, DecodeTotal(e)) == s.decode[e].total;
    }
    SumsSwap(s, s.decode, ActiveOf(), DecodeActives());
    SumsSwap(s, s.decode, TotalOf(), DecodeTotals());
    forall i {:trigger s.requests[i]} | 0 <= i < |s.requests|
      ensures Below(DecodeActives(), |s.decode|)(s.requests[i]) == InDecode()(s.requests[i])
      ensures Below(DecodeTotals(), |s.decode|)(s.requests[i]) == ShareOf(DecodeRequests)(s.requests[i])
    {
      assert RequestOk(s, s.requests[i]);
      BelowDecodeActive(|s.decode|, s.requests[i]);
      BelowDecodeTotal(|s.decode|, s.requests[i]);
    }
    SumEq(Below(DecodeActives(), |s.decode|), InDecode(), s.requests);
    SumEq(Below(DecodeTotals(), |s.decode|), ShareOf(DecodeRequests), s.requests);
    assert Count(s, DecodeRequests) == s.stats.decode;
  }

  /** In every reachable state the endpoints' connections are those of the phases in flight, and their request totals
      add up to the proxy's counters. */
  lemma EndpointsConserved(n: nat, m: nat, events: seq<Event>)
    ensures var s := Run(Initial(n, m), events);
      && (forall e {:trigger s.prefill[e]} | 0 <= e < |s.prefill| :: s.prefill[e].active >= 0)
      && (forall e {:trigger s.decode[e]} | 0 <= e < |s.decode| :: s.decode[e].active >= 0)
      && Sum(ActiveOf(), s.prefill) == Sum(InPrefill(), s.requests)
      && Sum(ActiveOf(), s.decode) == Sum(InDecode(), s.requests)
      && Sum(TotalOf(), s.prefill) == s.stats.prefill && Sum(TotalOf(), s.decode) == s.stats.decode
  {
    var s := Run(Initial(n, m), events);
    RunKeeps(n, m, events);
    PrefillEndpointsAddUp(s);
    DecodeEndpointsAddUp(s);
    forall e {:trigger s.prefill[e]} | 0 <= e < |s.prefill| ensures s.prefill[e].active >= 0 {
      assert Count(s, PrefillActive(e)) == s.prefill[e].active;
      ShareSumNonNegative(PrefillActive(e), s.requests);
    }
    forall e {:trigger s.decode[e]} | 0 <= e < |s.decode| ensures s.decode[e].active >= 0 {
      assert Count(s, DecodeActive(e)) == s.decode[e].active;
      ShareSumNonNegative(DecodeActive(e), s.requests);
    }
  }

  lemma {:induction false} ShareSumNonNegative(c: Counter, requests: seq<Request>)
    ensures Sum(ShareOf(c), requests) >= 0
  {
    if requests != [] { ShareSumNonNegative(c, requests[..|requests| - 1]); }
  }

  // ---------------------------------------------------------------- adding up over requests

  predicate Ended(ph: Phase) { ph.Succeeded? || ph.Failed? || ph.Cancelled? || ph.Orphaned? }

  function InFlight(): Request -> int { (r: Request) => One(!Ended(r.phase)) }

  /** Cancelled, or abandoned while streaming. */
  function GivenUp(): Request -> int { (r: Request) => One(r.phase.Cancelled? || r.phase.Orphaned?) }

  lemma {:induction false} OutcomesPartition(requests: seq<Request>)
    ensures |requests| == Sum(ShareOf(Success), requests) + Sum(ShareOf(Failure), requests)
                          + Sum(InFlight(), requests) + Sum(GivenUp(), requests)
  {
    if requests != [] { OutcomesPartition(requests[..|requests| - 1]); }
  }

  lemma {:induction false} PrefilledAtMost(requests: seq<Request>)
    ensures Sum(ShareOf(PrefillRequests), requests) <= |requests|
  {
    if requests != [] { PrefilledAtMost(requests[..|requests| - 1]); }
  }

  lemma CountersOrdered(s: State)
    requires Inv(s)
    ensures s.stats.success <= s.stats.decode <= s.stats.prefill <= s.stats.total
  {
    forall i {:trigger s.requests[i]} | 0 <= i < |s.requests|
      ensures ShareOf(Success)(s.requests[i]) <= ShareOf(DecodeRequests)(s.requests[i])
      ensures ShareOf(DecodeRequests)(s.requests[i]) <= ShareOf(PrefillRequests)(s.requests[i])
    {
      assert RequestOk(s, s.requests[i]);
    }
    SumLe(ShareOf(Success), ShareOf(DecodeRequests), s.requests);
    SumLe(ShareOf(DecodeRequests), ShareOf(PrefillRequests), s.requests);
    PrefilledAtMost(s.requests);
    StatsAreSums(s);
  }

  lemma StatsAreSums(s: State)
    requires Inv(s)
    ensures s.stats.success == Sum(ShareOf(Success), s.requests) && s.stats.failed == Sum(ShareOf(Failure), s.requests)
    ensures s.stats.decode == Sum(ShareOf(DecodeRequests), s.requests)
    ensures s.stats.prefill == Sum(ShareOf(PrefillRequests), s.requests) && s.stats.total == |s.requests|
  {
    assert Count(s, Success) == s.stats.success && Count(s, Failure) == s.stats.failed;
    assert Count(s, DecodeRequests) == s.stats.decode && Count(s, PrefillRequests) == s.stats.prefill;
  }

  /** In every reachable state success <= decode_requests <= prefill_requests <= requests_total, and requests_total is
      successes, failures, requests in flight and cancelled ones together. */
  lemma RequestsConserved(n: nat, m: nat, events: seq<Event>)
    ensures var s := Run(Initial(n, m), events);
      && s.stats.success <= s.stats.decode <= s.stats.prefill <= s.stats.total
      && s.stats.total == s.stats.success + s.stats.failed + Sum(InFlight(), s.requests) + Sum(GivenUp(), s.requests)
  {
    var s := Run(Initial(n, m), events);
    RunKeeps(n, m, events);
    CountersOrdered(s);
    StatsAreSums(s);
    OutcomesPartition(s.requests);
  }

  /** Every request has ended; an abandoned stream counts as ended. */
  predicate AllEnded(requests: seq<Request>)
  {
    forall i {:trigger requests[i]} | 0 <= i < |requests| :: Ended(requests[i].phase)
  }

  predicate NoneOrphaned(requests: seq<Request>)
  {
    forall i {:trigger requests[i]} | 0 <= i < |requests| :: !requests[i].phase.Orphaned?
  }

  /** Among ended requests only abandoned streams hold a connection. */
  lemma {:induction false} EndedHold(requests: seq<Request>)
    requires AllEnded(requests)
    ensures Sum(InPrefill(), requests) == 0 && Sum(InDecode(), requests) >= 0
    ensures Sum(InDecode(), requests) == 0 <==> NoneOrphaned(requests)
  {
    if requests != [] {
      var n := |requests| - 1;
      EndedHold(requests[..n]);
      assert NoneOrphaned(requests) <==> NoneOrphaned(requests[..n]) && !requests[n].phase.Orphaned?;
    }
  }

  /** When every request has ended no prefill connection is left open, and no decode connection exactly when no
      abandoned stream still waits to be finalised. */
  lemma LeaksIff(n: nat, m: nat, events: seq<Event>)
    requires AllEnded(Run(Initial(n, m), events).requests)
    ensures var s := Run(Initial(n, m), events);
      && Sum(ActiveOf(), s.prefill) == 0
      && (Sum(ActiveOf(), s.decode) == 0 <==> NoneOrphaned(s.requests))
  {
    EndpointsConserved(n, m, events);
    EndedHold(Run(Initial(n, m), events).requests);
  }

  /** Then every single endpoint is free, too. */
  lemma NothingLeaks(n: nat, m: nat, events: seq<Event>)
    requires AllEnded(Run(Initial(n, m), events).requests)
    ensures var s := Run(Initial(n, m), events);
      && (forall e {:trigger s.prefill[e]} | 0 <= e < |s.prefill| :: s.prefill[e].active == 0)
      && ((forall e {:trigger s.decode[e]} | 0 <= e < |s.decode| :: s.decode[e].active == 0)
          <==> NoneOrphaned(s.requests))
  {
    var s := Run(Initial(n, m), events);
    EndpointsConserved(n, m, events);
    LeaksIff(n, m, events);
    AllZeroIff(s.prefill);
    AllZeroIff(s.decode);
  }

  lemma {:induction false} AllZeroIff(servers: seq<Endpoint>)
    requires forall e {:trigger servers[e]} | 0 <= e < |servers| :: servers[e].active >= 0
    ensures Sum(ActiveOf(), servers) >= 0
    ensures Sum(ActiveOf(), servers) == 0
       <==> forall e {:trigger servers[e]} | 0 <= e < |servers| :: servers[e].active == 0
  {
    if servers != [] { AllZeroIff(servers[..|servers| - 1]); }
  }

  /** A stream on one endpoint of each kind, at successive suspension points: asleep in its prefill, at its start chunk,
      asleep for its first token, at that token, and closed there. */
  function StreamAt(k: nat): State
    requires 1 <= k <= 5
  {
    var phases := [Prefilling(0), StartYield(0), Decoding(0, 100), TokenYield(0, 99), Orphaned(0)];
    var prefill, decode := Endpoint(true, One(k == 1), One(k > 1)), Endpoint(true, One(k > 2), 0);
    var r := Request(true, 100, phases[k - 1], One(k > 3), if k > 1 then Some(0) else None, None);
    State([prefill], [decode], 1, One(k > 1), Stats(1, 0, 0, One(k > 1), 0), [r], [0], if k > 1 then [0] else [])
  }

  const CLOSED_STREAM: seq<Event> := [Arrive(true, None), Resume(0), Resume(0), Resume(0), Cancel(0)]

  lemma OnlyServer(servers: seq<Endpoint>)
    requires |servers| == 1 && servers[0].healthy
    ensures Select(servers, 0) == Some(0)
  {
    assert servers[..0] == [];
  }

  lemma StreamArrives()
    ensures Step(Initial(1, 1), CLOSED_STREAM[0]) == StreamAt(1)
  {
    OnlyServer(Fresh(1));
  }

  lemma StreamRouted()
    ensures Step(StreamAt(1), CLOSED_STREAM[1]) == StreamAt(2)
  {
    OnlyServer(StreamAt(1).decode);
  }

  lemma StreamStarts()
    ensures Step(StreamAt(2), CLOSED_STREAM[2]) == StreamAt(3)
  {
  }

  lemma StreamGenerates()
    ensures Step(StreamAt(3), CLOSED_STREAM[3]) == StreamAt(4)
  {
  }

  lemma StreamCloses()
    ensures Step(StreamAt(4), CLOSED_STREAM[4]) == StreamAt(5)
  {
  }

  lemma {:induction false} StreamRun(k: nat)
    requires 1 <= k <= 5
    ensures Run(Initial(1, 1), CLOSED_STREAM[..k]) == StreamAt(k)
  {
    assert CLOSED_STREAM[..k][..k - 1] == CLOSED_STREAM[..k - 1] && CLOSED_STREAM[..k][k - 1] == CLOSED_STREAM[k - 1];
    if k == 1 {
      StreamArrives();
    } else {
      StreamRun(k - 1);
      if k == 2 { StreamRouted(); }
      if k == 3 { StreamStarts(); }
      if k == 4 { StreamGenerates(); }
      if k == 5 { StreamCloses(); }
    }
  }

  lemma ClosedStreamHolds()
    ensures AllEnded(StreamAt(5).requests) && StreamAt(5).decode[0].active == 1
    ensures Step(StreamAt(5), Finalise(0)).decode == [Endpoint(true, 0, 0)]
  {
  }

  /** A stream closed at a token leaves its decode connection counted, until the inner generator is finalised. */
  lemma ClosedStreamLeaks()
    ensures Run(Initial(1, 1), CLOSED_STREAM) == StreamAt(5) && AllEnded(StreamAt(5).requests)
    ensures StreamAt(5).decode[0].active == 1 && Step(StreamAt(5), Finalise(0)).decode == [Endpoint(true, 0, 0)]
  {
    StreamRun(5);
    ClosedStreamHolds();
    assert CLOSED_STREAM[..5] == CLOSED_STREAM;
  }
}
