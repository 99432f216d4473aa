/** The proxy itself, updating its endpoints and statistics in place (src/kvbench/servers/proxy.py).

`requests` holds the suspended coroutines; each method runs one of them from a suspension point to the next. */
module ProxyServer {
  import opened Wrappers
  import opened Arith
  import opened OpenAiCompat
  import opened Proxy

  class ServerEndpoint {
    var healthy: bool
    var activeConnections: int
    var totalRequests: nat

    constructor ()
      ensures Snapshot() == Endpoint(true, 0, 0)
    {
      healthy, activeConnections, totalRequests := true, 0, 0;
    }

    function Snapshot(): Endpoint
      reads this
    {
      Endpoint(healthy, activeConnections, totalRequests)
    }
  }

  predicate AllDifferent(servers: seq<ServerEndpoint>)
  {
    forall i, j | 0 <= i < j < |servers| :: servers[i] != servers[j]
  }

  function Snapshots(servers: seq<ServerEndpoint>): (es: seq<Endpoint>)
    reads servers
    ensures |es| == |servers|
    ensures forall i {:trigger es[i]} | 0 <= i < |servers| :: es[i] == servers[i].Snapshot()
  {
    if servers == [] then [] else Snapshots(servers[..|servers| - 1]) + [servers[|servers| - 1].Snapshot()]
  }

  /** The list comprehension `[s for s in servers if s.healthy]`, by position, and the round-robin choice from it. */
  method Choose(servers: seq<ServerEndpoint>, index: nat) returns (choice: Option<nat>)
    ensures choice == Select(Snapshots(servers), index)
  {
    var healthyServers: seq<nat> := [];
    for i := 0 to |servers|
      invariant healthyServers == Healthy(Snapshots(servers)[..i])
    {
      assert Snapshots(servers)[..i + 1][..i] == Snapshots(servers)[..i];
      if servers[i].healthy {
        healthyServers := healthyServers + [i];
      }
    }
    assert Snapshots(servers)[..|servers|] == Snapshots(servers);
    if healthyServers == [] { return None; }
    return Some(healthyServers[Mod(index, |healthyServers|)]);
  }

  method Connect(servers: seq<ServerEndpoint>, e: nat, delta: int)
    requires AllDifferent(servers) && e < |servers|
    modifies servers[e]
    ensures Snapshots(servers) == AddActive(old(Snapshots(servers)), e, delta)
  {
    servers[e].activeConnections := servers[e].activeConnections + delta;
    assert forall i | 0 <= i < |servers| && i != e :: servers[i] != servers[e];
  }

  /** `total_requests += 1`, and the `finally` that gives the connection back. */
  method Finish(servers: seq<ServerEndpoint>, e: nat)
    requires AllDifferent(servers) && e < |servers|
    modifies servers[e]
    ensures Snapshots(servers) == AddActive(AddServed(old(Snapshots(servers)), e), e, -1)
  {
    servers[e].totalRequests := servers[e].totalRequests + 1;
    servers[e].activeConnections := servers[e].activeConnections - 1;
    assert forall i | 0 <= i < |servers| && i != e :: servers[i] != servers[e];
  }

  class DisaggregatedProxy {
    const prefillServers: seq<ServerEndpoint>
    const decodeServers: seq<ServerEndpoint>
    var prefillIndex: nat
    var decodeIndex: nat
    var stats: Stats
    var requests: seq<Request>
    ghost var prefillPicks: seq<nat>
    ghost var decodePicks: seq<nat>

    constructor (prefillServers: seq<ServerEndpoint>, decodeServers: seq<ServerEndpoint>)
      ensures this.prefillServers == prefillServers && this.decodeServers == decodeServers
      ensures View()
           == State(Snapshots(prefillServers), Snapshots(decodeServers), 0, 0, Stats(0, 0, 0, 0, 0), [], [], [])
    {
      this.prefillServers, this.decodeServers := prefillServers, decodeServers;
      prefillIndex, decodeIndex, stats, requests := 0, 0, Stats(0, 0, 0, 0, 0), [];
      prefillPicks, decodePicks := [], [];
    }

    ghost function View(): State
      reads this, prefillServers, decodeServers
    {
      State(Snapshots(prefillServers), Snapshots(decodeServers), prefillIndex, decodeIndex, stats, requests,
            prefillPicks, decodePicks)
    }

    /** No endpoint object is listed twice. */
    predicate Valid()
    {
      && AllDifferent(prefillServers) && AllDifferent(decodeServers)
      && forall p, d | 0 <= p < |prefillServers| && 0 <= d < |decodeServers| :: prefillServers[p] != decodeServers[d]
    }

    method ConnectPrefill(p: nat, delta: int)
      requires Valid() && p < |prefillServers|
      modifies prefillServers
      ensures View() == old(View()).(prefill := AddActive(old(View()).prefill, p, delta))
    {
      Connect(prefillServers, p, delta);
    }

    method ConnectDecode(d: nat, delta: int)
      requires Valid() && d < |decodeServers|
      modifies decodeServers
      ensures View() == old(View()).(decode := AddActive(old(View()).decode, d, delta))
    {
      Connect(decodeServers, d, delta);
    }

    method FinishPrefill(p: nat)
      requires Valid() && p < |prefillServers|
      modifies prefillServers
      ensures View() == old(View()).(prefill := AddActive(AddServed(old(View()).prefill, p), p, -1))
    {
      Finish(prefillServers, p);
    }

    method FinishDecode(d: nat)
      requires Valid() && d < |decodeServers|
      modifies decodeServers
      ensures View() == old(View()).(decode := AddActive(AddServed(old(View()).decode, d), d, -1))
    {
      Finish(decodeServers, d);
    }

    method RefuseRequest(streaming: bool, max: nat)
      modifies this`requests, this`stats
      ensures View() == Refuse(old(View()), streaming, max)
    {
      stats := stats.(total := stats.total + 1);
      if !streaming {
        stats := stats.(failed := stats.failed + 1);
      }
      requests := requests + [Request(streaming, max, if streaming then FailYield else Failed, 0, None, None)];
    }

    /** `_select_prefill_server`. */
    method SelectPrefillServer() returns (server: Option<nat>)
      modifies this`prefillIndex, this`prefillPicks
      ensures server == Select(old(View()).prefill, old(prefillIndex))
      ensures View() == if server.None? then old(View()) else
        old(View()).(prefillIndex := old(prefillIndex) + 1, prefillPicks := old(prefillPicks) + [server.value])
    {
      server := Choose(prefillServers, prefillIndex);
      if server.Some? {
        prefillIndex := prefillIndex + 1;
        prefillPicks := prefillPicks + [server.value];
      }
    }

    method BeginPrefillPhase(p: nat, streaming: bool, max: nat)
      requires Valid() && p < |prefillServers|
      modifies this`requests, this`stats, prefillServers
      ensures View() == old(View()).(prefill := AddActive(old(View()).prefill, p, 1),
        requests := old(requests) + [Request(streaming, max, Prefilling(p), 0, None, None)],
        stats := old(stats).(total := old(stats).total + 1))
    {
      stats := stats.(total := stats.total + 1);
      ConnectPrefill(p, 1);
      requests := requests + [Request(streaming, max, Prefilling(p), 0, None, None)];
    }

    method Arrive(streaming: bool, maxTokens: Option<int>)
      requires Valid()
      modifies this, prefillServers
      ensures View() == ArriveStep(old(View()), streaming, maxTokens)
    {
      var max := TokensToGenerate(maxTokens);
      var server := SelectPrefillServer();
      if server.None? {
        RefuseRequest(streaming, max);
      } else {
        BeginPrefillPhase(server.value, streaming, max);
      }
    }

    method Move(i: nat, phase: Phase)
      requires i < |requests|
      modifies this`requests
      ensures View() == SetPhase(old(View()), i, phase)
    {
      requests := requests[i := requests[i].(phase := phase)];
    }

    method GenerateToken(i: nat)
      requires i < |requests| && requests[i].phase.Decoding?
      modifies this`requests
      ensures View() == Generate(old(View()), i)
    {
      var r := requests[i];
      var one := Min(1, r.phase.remaining);
      var phase := Decoding(r.phase.d, r.phase.remaining - one);
      requests := requests[i := r.(generated := r.generated + one, phase := phase)];
    }

    /** After the last token: both counters, the connection, and for a plain request its success. */
    method EndDecodePhase(i: nat, d: nat)
      requires Valid() && i < |requests| && d < |decodeServers|
      modifies this`requests, this`stats, decodeServers
      ensures View() == EndDecode(old(View()), i, d)
    {
      FinishDecode(d);
      stats := stats.(decode := stats.decode + 1);
      requests := requests[i := requests[i].(decoded := Some(d), phase := EndYield(2))];
      if !requests[i].streaming {
        stats := stats.(success := stats.success + 1);
        Move(i, Succeeded);
      }
    }

    method BeginDecodePhase(i: nat, d: nat)
      requires Valid() && i < |requests| && d < |decodeServers|
      modifies this`requests, this`stats, decodeServers
      ensures View() == BeginDecode(old(View()), i, d)
    {
      ConnectDecode(d, 1);
      Move(i, Decoding(d, requests[i].maxTokens));
      if requests[i].maxTokens == 0 {
        EndDecodePhase(i, d);
      }
    }

    method WithoutDecodeServer(i: nat)
      requires i < |requests|
      modifies this`requests, this`stats
      ensures View() == if old(requests[i]).streaming then SetPhase(old(View()), i, FailYield) else Fail(old(View()), i)
    {
      if requests[i].streaming {
        Move(i, FailYield);
      } else {
        stats := stats.(failed := stats.failed + 1);
        Move(i, Failed);
      }
    }

    method WithDecodeServer(i: nat, d: nat)
      requires Valid() && i < |requests| && d < |decodeServers|
      modifies this`requests, this`stats, decodeServers
      ensures View() == if old(requests[i]).streaming then SetPhase(old(View()), i, StartYield(d))
                        else BeginDecode(old(View()), i, d)
    {
      if requests[i].streaming {
        Move(i, StartYield(d));
      } else {
        BeginDecodePhase(i, d);
      }
    }

    /** `_select_decode_server`. */
    method SelectDecodeServer() returns (server: Option<nat>)
      modifies this`decodeIndex, this`decodePicks
      ensures server == Select(old(View()).decode, old(decodeIndex))
      ensures View() == if server.None? then old(View()) else
        old(View()).(decodeIndex := old(decodeIndex) + 1, decodePicks := old(decodePicks) + [server.value])
    {
      server := Choose(decodeServers, decodeIndex);
      if server.Some? {
        decodeIndex := decodeIndex + 1;
        decodePicks := decodePicks + [server.value];
      }
    }

    method RouteToDecode(i: nat)
      requires Valid() && i < |requests|
      modifies this, decodeServers
      ensures View() == Route(old(View()), i)
    {
      hide Healthy, BeginDecode;
      var server := SelectDecodeServer();
      if server.None? {
        WithoutDecodeServer(i);
      } else {
        WithDecodeServer(i, server.value);
      }
    }

    method EndPrefillPhase(i: nat, p: nat)
      requires Valid() && i < |requests| && p < |prefillServers|
      modifies this, prefillServers
      ensures View() == EndPrefill(old(View()), i, p)
    {
      FinishPrefill(p);
      stats := stats.(prefill := stats.prefill + 1);
      requests := requests[i := requests[i].(prefilled := Some(p), phase := FailYield)];
    }

    /** A token's sleep is over. */
    method AfterSleep(i: nat, d: nat, n: nat)
      requires Valid() && i < |requests| && d < |decodeServers| && requests[i].phase == Decoding(d, n)
      modifies this`requests, this`stats, decodeServers
      ensures View() == ResumeStep(old(View()), i)
    {
      GenerateToken(i);
      if requests[i].streaming {
        Move(i, TokenYield(d, requests[i].phase.remaining));
      } else if n <= 1 {
        EndDecodePhase(i, d);
      }
    }

    /** The client has taken a token, or one of the closing chunks. */
    method AfterYield(i: nat)
      requires Valid() && i < |requests| && Handles(View(), requests[i].phase)
      requires requests[i].phase.TokenYield? || requests[i].phase.EndYield?
      modifies this`requests, this`stats, decodeServers
      ensures View() == ResumeStep(old(View()), i)
    {
      match requests[i].phase {
        case TokenYield(d, n) =>
          if n == 0 { EndDecodePhase(i, d); } else { Move(i, Decoding(d, n)); }
        case EndYield(n) =>
          if n <= 1 {
            stats := stats.(success := stats.success + 1);
            Move(i, Succeeded);
          } else {
            Move(i, EndYield(n - 1));
          }
      }
    }

    /** Run request i from where it is suspended to its next suspension point, or to its end. */
    method Resume(i: nat)
      requires Valid() && i < |requests| && Handles(View(), requests[i].phase)
      modifies this, prefillServers, decodeServers
      ensures View() == Step(old(View()), Event.Resume(i))
    {
      match requests[i].phase {
        case Prefilling(p) =>
          EndPrefillPhase(i, p);
          RouteToDecode(i);
        case FailYield =>
          stats := stats.(failed := stats.failed + 1);
          Move(i, Failed);
        case StartYield(d) => BeginDecodePhase(i, d);
        case Decoding(d, n) => AfterSleep(i, d, n);
        case TokenYield(_, _) => AfterYield(i);
        case EndYield(_) => AfterYield(i);
        case _ =>
      }
    }

    /** Cancellation at the suspension point: the `finally` blocks run, the `except Exception` handlers do not. */
    method Cancel(i: nat)
      requires Valid() && i < |requests| && Handles(View(), requests[i].phase)
      modifies this, prefillServers, decodeServers
      ensures View() == Step(old(View()), Event.Cancel(i))
    {
      match requests[i].phase {
        case Prefilling(p) =>
          ConnectPrefill(p, -1);
          Move(i, Cancelled);
        case Decoding(d, _) =>
          ConnectDecode(d, -1);
          Move(i, Cancelled);
        case TokenYield(d, _) => Move(i, Orphaned(d));
        case FailYield => Move(i, Cancelled);
        case StartYield(_) => Move(i, Cancelled);
        case EndYield(_) => Move(i, Cancelled);
        case _ =>
      }
    }

    method Finalise(i: nat)
      requires Valid() && i < |requests| && Handles(View(), requests[i].phase)
      modifies this, decodeServers
      ensures View() == Step(old(View()), Event.Finalise(i))
    {
      match requests[i].phase {
        case Orphaned(d) =>
          ConnectDecode(d, -1);
          Move(i, Cancelled);
        case _ =>
      }
    }
  }
}
