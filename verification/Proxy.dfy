/** The disaggregated proxy as a state machine (src/kvbench/servers/proxy.py).

A request runs without interruption between two suspension points: the sleeps of its phases and, when it streams,
its yields.  At each of them other requests may run, and the request itself may be cancelled or its stream closed. */
module Proxy {
  import opened Wrappers
  import opened Arith
  import opened OpenAiCompat
  import opened Sums

  datatype Endpoint = Endpoint(healthy: bool, active: int, total: nat)

  datatype Stats = Stats(total: nat, success: nat, failed: nat, prefill: nat, decode: nat)

  /** Where a request is suspended, or how it ended.  p and d are positions in the endpoint lists. */
  datatype Phase =
    | Prefilling(p: nat)
    | FailYield
    | StartYield(d: nat)
    | Decoding(d: nat, remaining: nat)
    | TokenYield(d: nat, remaining: nat)
    | EndYield(chunks: nat)
    | Succeeded
    | Failed
    | Cancelled
    // The stream was closed at a token; its inner generator still waits to be finalised.
    | Orphaned(d: nat)

  /** `generated` counts the tokens out so far; `prefilled` and `decoded` record which endpoints have counted the
      request. */
  datatype Request = Request(streaming: bool, maxTokens: nat, phase: Phase, generated: nat, prefilled: Option<nat>,
                             decoded: Option<nat>)

  datatype State = State(prefill: seq<Endpoint>, decode: seq<Endpoint>, prefillIndex: nat, decodeIndex: nat,
                         stats: Stats, requests: seq<Request>, prefillPicks: seq<nat>, decodePicks: seq<nat>)

  datatype Event =
    | Arrive(streaming: bool, maxTokens: Option<int>)
    | Resume(i: nat)
    | Cancel(i: nat)
    | Finalise(i: nat)
    | SetPrefillHealth(e: nat, up: bool)
    | SetDecodeHealth(e: nat, up: bool)

  // ---------------------------------------------------------------- round robin

  /** Positions of the healthy servers, in list order. */
  function Healthy(servers: seq<Endpoint>): (h: seq<nat>)
    ensures forall j {:trigger h[j]} | 0 <= j < |h| :: h[j] < |servers| && servers[h[j]].healthy
  {
    if servers == [] then []
    else
      var n := |servers| - 1;
      Healthy(servers[..n]) + if servers[n].healthy then [n] else []
  }

  function Select(servers: seq<Endpoint>, index: nat): (r: Option<nat>)
    ensures r.Some? ==> r.value < |servers| && servers[r.value].healthy
  {
    var h := Healthy(servers);
    if h == [] then None else Some(h[Mod(index, |h|)])
  }

  // ---------------------------------------------------------------- the steps

  function AddActive(servers: seq<Endpoint>, e: nat, delta: int): seq<Endpoint>
    requires e < |servers|
  {
    servers[e := servers[e].(active := servers[e].active + delta)]
  }

  function AddServed(servers: seq<Endpoint>, e: nat): seq<Endpoint>
    requires e < |servers|
  {
    servers[e := servers[e].(total := servers[e].total + 1)]
  }

  predicate Handles(s: State, ph: Phase)
  {
    match ph
    case Prefilling(p) => p < |s.prefill|
    case StartYield(d) => d < |s.decode|
    case Decoding(d, _) => d < |s.decode|
    case TokenYield(d, _) => d < |s.decode|
    case Orphaned(d) => d < |s.decode|
    case _ => true
  }

  function SetPhase(s: State, i: nat, ph: Phase): State
    requires i < |s.requests|
  {
    s.(requests := s.requests[i := s.requests[i].(phase := ph)])
  }

  /** No healthy prefill server: a plain request fails at once, a stream first sends its error. */
  function Refuse(s: State, streaming: bool, max: nat): State
  {
    s.(requests := s.requests + [Request(streaming, max, if streaming then FailYield else Failed, 0, None, None)],
       stats := s.stats.(total := s.stats.total + 1, failed := s.stats.failed + if streaming then 0 else 1))
  }

  function Accept(s: State, p: nat, streaming: bool, max: nat): State
    requires p < |s.prefill|
  {
    s.(requests := s.requests + [Request(streaming, max, Prefilling(p), 0, None, None)],
       prefillIndex := s.prefillIndex + 1, prefillPicks := s.prefillPicks + [p], prefill := AddActive(s.prefill, p, 1),
       stats := s.stats.(total := s.stats.total + 1))
  }

  function ArriveStep(s: State, streaming: bool, maxTokens: Option<int>): State
  {
    var pick := Select(s.prefill, s.prefillIndex);
    var max := TokensToGenerate(maxTokens);
    if pick.None? then Refuse(s, streaming, max) else Accept(s, pick.value, streaming, max)
  }

  /** The prefill sleep is over: count the request and give the connection back.  `Route` says what comes next. */
  function EndPrefill(s: State, i: nat, p: nat): State
    requires i < |s.requests| && p < |s.prefill|
  {
    s.(prefill := AddActive(AddServed(s.prefill, p), p, -1), stats := s.stats.(prefill := s.stats.prefill + 1),
       requests := s.requests[i := s.requests[i].(prefilled := Some(p), phase := FailYield)])
  }

  /** All tokens are out: count the request and give the connection back. */
  function EndDecode(s: State, i: nat, d: nat): State
    requires i < |s.requests| && d < |s.decode|
  {
    var r := s.requests[i];
    var t := s.(decode := AddActive(AddServed(s.decode, d), d, -1), stats := s.stats.(decode := s.stats.decode + 1),
                requests := s.requests[i := r.(decoded := Some(d), phase := EndYield(2))]);
    if r.streaming then t else Succeed(t, i)
  }

  function Succeed(s: State, i: nat): State
    requires i < |s.requests|
  {
    SetPhase(s, i, Succeeded).(stats := s.stats.(success := s.stats.success + 1))
  }

  function Fail(s: State, i: nat): State
    requires i < |s.requests|
  {
    SetPhase(s, i, Failed).(stats := s.stats.(failed := s.stats.failed + 1))
  }

  /** Take a decode connection and sleep for the first token, if there is one. */
  function BeginDecode(s: State, i: nat, d: nat): State
    requires i < |s.requests| && d < |s.decode|
  {
    var r := s.requests[i];
    var t := SetPhase(s, i, Decoding(d, r.maxTokens)).(decode := AddActive(s.decode, d, 1));
    if r.maxTokens == 0 then EndDecode(t, i, d) else t
  }

  /** Between prefill and decode. */
  function Route(s: State, i: nat): State
    requires i < |s.requests|
  {
    match Select(s.decode, s.decodeIndex)
    case None => if s.requests[i].streaming then SetPhase(s, i, FailYield) else Fail(s, i)
    case Some(d) =>
      var t := s.(decodeIndex := s.decodeIndex + 1, decodePicks := s.decodePicks + [d]);
      if s.requests[i].streaming then SetPhase(t, i, StartYield(d)) else BeginDecode(t, i, d)
  }

  /** A token's sleep is over; nobody sleeps with no token left. */
  function Generate(s: State, i: nat): State
    requires i < |s.requests| && s.requests[i].phase.Decoding?
  {
    var r := s.requests[i];
    var one := Min(1, r.phase.remaining);
    var phase := Decoding(r.phase.d, r.phase.remaining - one);
    s.(requests := s.requests[i := r.(generated := r.generated + one, phase := phase)])
  }

  function ResumeStep(s: State, i: nat): State
    requires i < |s.requests| && Handles(s, s.requests[i].phase)
  {
    var r := s.requests[i];
    match r.phase
    case Prefilling(p) => Route(EndPrefill(s, i, p), i)
    case FailYield => Fail(s, i)
    case StartYield(d) => BeginDecode(s, i, d)
    case Decoding(d, n) =>
      var t := Generate(s, i);
      if r.streaming then SetPhase(t, i, TokenYield(d, t.requests[i].phase.remaining))
      else if n <= 1 then EndDecode(t, i, d)
      else t
    case TokenYield(d, n) => if n == 0 then EndDecode(s, i, d) else SetPhase(s, i, Decoding(d, n))
    case EndYield(n) => if n <= 1 then Succeed(s, i) else SetPhase(s, i, EndYield(n - 1))
    case _ => s
  }

  /** Cancellation runs the `finally` of the phase it interrupts, and counts as neither success nor failure. */
  function CancelStep(s: State, i: nat): State
    requires i < |s.requests| && Handles(s, s.requests[i].phase)
  {
    match s.requests[i].phase
    case Prefilling(p) => SetPhase(s, i, Cancelled).(prefill := AddActive(s.prefill, p, -1))
    case Decoding(d, _) => SetPhase(s, i, Cancelled).(decode := AddActive(s.decode, d, -1))
    case TokenYield(d, _) => SetPhase(s, i, Orphaned(d))
    case FailYield => SetPhase(s, i, Cancelled)
    case StartYield(_) => SetPhase(s, i, Cancelled)
    case EndYield(_) => SetPhase(s, i, Cancelled)
    case _ => s
  }

  /** The event loop closes the inner generator of an abandoned stream. */
  function FinaliseStep(s: State, i: nat): State
    requires i < |s.requests| && Handles(s, s.requests[i].phase)
  {
    match s.requests[i].phase
    case Orphaned(d) => SetPhase(s, i, Cancelled).(decode := AddActive(s.decode, d, -1))
    case _ => s
  }

  /** One step; an event that names no request or endpoint changes nothing. */
  function Step(s: State, e: Event): State
  {
    match e
    case Arrive(streaming, maxTokens) => ArriveStep(s, streaming, maxTokens)
    case Resume(i) => if i < |s.requests| && Handles(s, s.requests[i].phase) then ResumeStep(s, i) else s
    case Cancel(i) => if i < |s.requests| && Handles(s, s.requests[i].phase) then CancelStep(s, i) else s
    case Finalise(i) => if i < |s.requests| && Handles(s, s.requests[i].phase) then FinaliseStep(s, i) else s
    case SetPrefillHealth(e, up) =>
      if e < |s.prefill| then s.(prefill := s.prefill[e := s.prefill[e].(healthy := up)]) else s
    case SetDecodeHealth(e, up) =>
      if e < |s.decode| then s.(decode := s.decode[e := s.decode[e].(healthy := up)]) else s
  }

  function Run(s: State, events: seq<Event>): State
  {
    if events == [] then s else Step(Run(s, events[..|events| - 1]), events[|events| - 1])
  }

  function Fresh(n: nat): seq<Endpoint> { seq(n, _ => Endpoint(true, 0, 0)) }

  /** n prefill and m decode endpoints, nothing served yet. */
  function Initial(n: nat, m: nat): State { State(Fresh(n), Fresh(m), 0, 0, Stats(0, 0, 0, 0, 0), [], [], []) }

  // ---------------------------------------------------------------- what each request contributes

  datatype Counter =
    | PrefillActive(e: nat) | PrefillTotal(e: nat) | DecodeActive(e: nat) | DecodeTotal(e: nat)
    | PrefillRequests | DecodeRequests | Success | Failure

  function Count(s: State, c: Counter): int
  {
    match c
    case PrefillActive(e) => if e < |s.prefill| then s.prefill[e].active else 0
    case PrefillTotal(e) => if e < |s.prefill| then s.prefill[e].total else 0
    case DecodeActive(e) => if e < |s.decode| then s.decode[e].active else 0
    case DecodeTotal(e) => if e < |s.decode| then s.decode[e].total else 0
    case PrefillRequests => s.stats.prefill
    case DecodeRequests => s.stats.decode
    case Success => s.stats.success
    case Failure => s.stats.failed
  }

  predicate HoldsPrefill(r: Request) { r.phase.Prefilling? }

  predicate HoldsDecode(r: Request) { r.phase.Decoding? || r.phase.TokenYield? || r.phase.Orphaned? }

  function One(b: bool): int { if b then 1 else 0 }

  function Share(c: Counter, r: Request): int
  {
    match c
    case PrefillActive(e) => One(HoldsPrefill(r) && r.phase.p == e)
    case PrefillTotal(e) => One(r.prefilled == Some(e))
    case DecodeActive(e) => One(HoldsDecode(r) && r.phase.d == e)
    case DecodeTotal(e) => One(r.decoded == Some(e))
    case PrefillRequests => One(r.prefilled.Some?)
    case DecodeRequests => One(r.decoded.Some?)
    case Success => One(r.phase.Succeeded?)
    case Failure => One(r.phase.Failed?)
  }

  function ShareOf(c: Counter): Request -> int { (r: Request) => Share(c, r) }

  ghost predicate Balanced(s: State)
  {
    forall c {:trigger Count(s, c)} :: Count(s, c) == Sum(ShareOf(c), s.requests)
  }

  /** Tokens out and tokens to come always make up the limit. */
  predicate TokensOk(r: Request)
  {
    && r.generated <= r.maxTokens && (r.decoded.Some? ==> r.generated == r.maxTokens)
    && match r.phase {
         case Prefilling(_) => r.generated == 0
         case FailYield => r.generated == 0
         case StartYield(_) => r.generated == 0
         case Decoding(_, n) => r.generated + n == r.maxTokens
         case TokenYield(_, n) => r.generated + n == r.maxTokens
         case _ => true
       }
  }

  /** Servers are in range, and the counted phases come in their order. */
  predicate RequestOk(s: State, r: Request)
  {
    && TokensOk(r)
    && Handles(s, r.phase)
    && (r.prefilled.Some? ==> r.prefilled.value < |s.prefill|) && (r.decoded.Some? ==> r.decoded.value < |s.decode|)
    && (r.decoded.Some? ==> r.prefilled.Some?) && (r.phase.Prefilling? ==> r.prefilled.None?)
    && (r.phase.StartYield? || HoldsDecode(r) ==> r.prefilled.Some? && r.decoded.None?)
    && (r.phase.EndYield? || r.phase.Succeeded? ==> r.decoded.Some?)
  }

  predicate RequestsOk(s: State)
  {
    forall i {:trigger s.requests[i]} | 0 <= i < |s.requests| :: RequestOk(s, s.requests[i])
  }

  ghost predicate Inv(s: State)
  {
    Balanced(s) && RequestsOk(s) && s.stats.total == |s.requests|
  }
}
