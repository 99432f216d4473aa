/** Fairness of round-robin selection over whole proxy runs (src/kvbench/servers/proxy.py). */
module RoundRobin {
  import opened Arith
  import opened Sums
  import opened Proxy

  // ---------------------------------------------------------------- w consecutive selections

  /** What w selections pick from the healthy servers h, starting at a counter value. */
  function Window(h: seq<nat>, start: nat, w: nat): seq<nat>
    requires h != []
  {
    seq(w, (t: nat) => h[Mod(start + t, |h|)])
  }

  function Is(x: nat): nat -> int { (y: nat) => if y == x then 1 else 0 }

  /** How often x occurs. */
  function Times(x: nat, xs: seq<nat>): int { Sum(Is(x), xs) }

  ghost predicate Distinct(h: seq<nat>) { forall i, j | 0 <= i < j < |h| :: h[i] != h[j] }

  /** How many counter values below n fall on position j of m. */
  function Landed(m: Pos, j: nat, n: nat): nat
    requires j < m
  {
    Div(n + m - 1 - j, m)
  }

  lemma LandedNext(m: Pos, j: nat, n: nat)
    requires j < m
    ensures Landed(m, j, n + 1) == Landed(m, j, n) + if Mod(n, m) == j then 1 else 0
  {
    DivMod(n, m);
    var q, r := Div(n, m), Mod(n, m);
    assert n + m - j == Offset(m, q) + (r + m - j);
    if r + 1 <= j {
      OffsetDivMod(m, q, r + m - j);
      OffsetDivMod(m, q, r + m - 1 - j);
    } else {
      assert Offset(m, q + 1) == Offset(m, q) + m;
      OffsetDivMod(m, q + 1, r - j);
      if r > j { OffsetDivMod(m, q + 1, r - j - 1); } else { OffsetDivMod(m, q, m - 1); }
    }
  }

  lemma {:induction false} TimesInWindow(h: seq<nat>, j: nat, start: nat, w: nat)
    requires j < |h| && Distinct(h)
    ensures Times(h[j], Window(h, start, w)) == Landed(|h|, j, start + w) - Landed(|h|, j, start)
  {
    if w > 0 {
      var last := h[Mod(start + w - 1, |h|)];
      TimesInWindow(h, j, start, w - 1);
      LandedNext(|h|, j, start + w - 1);
      assert Window(h, start, w) == Window(h, start, w - 1) + [last];
      SumAppend(Is(h[j]), Window(h, start, w - 1), last);
    }
  }

  /** A quotient of a sum, between the sums of the quotients rounded down and up. */
  lemma DivSum(a: nat, w: nat, m: Pos)
    ensures Div(a, m) + Div(w, m) <= Div(a + w, m) <= Div(a, m) + CeilDiv(w, m)
  {
    DivMod(a, m);
    DivMod(w, m);
    CeilOf(w, m);
    QuotientOfSum(a + w, m, Div(a, m), Div(w, m), Mod(a, m) + Mod(w, m));
  }

  lemma QuotientOfSum(n: nat, m: Pos, q: nat, q': nat, r: nat)
    requires n == Offset(m, q) + Offset(m, q') + r && r < m + m
    ensures Div(n, m) == q + q' + if r < m then 0 else 1
  {
  }

  lemma LandedBounds(m: Pos, j: nat, n: nat, w: nat)
    requires j < m
    ensures Div(w, m) <= Landed(m, j, n + w) - Landed(m, j, n) <= CeilDiv(w, m)
  {
    DivSum(n + m - 1 - j, w, m);
    assert n + m - 1 - j + w == n + w + m - 1 - j;
  }

  lemma CeilOf(w: nat, m: Pos)
    ensures CeilDiv(w, m) == Div(w, m) + if Mod(w, m) == 0 then 0 else 1
  {
    DivMod(w, m);
    if Mod(w, m) == 0 {
      OffsetDivMod(m, Div(w, m), m - 1);
    } else {
      assert Offset(m, Div(w, m) + 1) == Offset(m, Div(w, m)) + m;
      OffsetDivMod(m, Div(w, m) + 1, Mod(w, m) - 1);
    }
  }

  // ---------------------------------------------------------------- the healthy list

  lemma {:induction false} HealthyDistinct(servers: seq<Endpoint>)
    ensures Distinct(Healthy(servers))
  {
    if servers != [] {
      var n := |servers| - 1;
      HealthyDistinct(servers[..n]);
      var init := Healthy(servers[..n]);
      forall i {:trigger init[i]} | 0 <= i < |init| ensures init[i] < n {}
    }
  }

  lemma {:induction false} HealthyListed(servers: seq<Endpoint>, e: nat)
    requires e < |servers|
    ensures e in Healthy(servers) <==> servers[e].healthy
  {
    var n := |servers| - 1;
    if e < n { HealthyListed(servers[..n], e); }
  }

  /** The healthy servers are listed in the order of the servers. */
  lemma {:induction false} HealthyOrdered(servers: seq<Endpoint>, i: nat, j: nat)
    requires i < j < |Healthy(servers)|
    ensures Healthy(servers)[i] < Healthy(servers)[j] < |servers|
  {
    var n := |servers| - 1;
    var init := Healthy(servers[..n]);
    if j < |init| { HealthyOrdered(servers[..n], i, j); } else { assert init[i] < n; }
  }

  /** Selection fails exactly when every server is down, and otherwise picks a healthy one. */
  lemma SelectionFails(servers: seq<Endpoint>, index: nat)
    ensures Select(servers, index).None? <==> forall e {:trigger servers[e]} | 0 <= e < |servers| :: !servers[e].healthy
    ensures Select(servers, index).Some? ==> servers[Select(servers, index).value].healthy
  {
    forall e: nat {:trigger servers[e]} | e < |servers|
      ensures e in Healthy(servers) <==> servers[e].healthy
    {
      HealthyListed(servers, e);
    }
  }

  predicate SameHealth(a: seq<Endpoint>, b: seq<Endpoint>)
  {
    |a| == |b| && forall i {:trigger a[i]} | 0 <= i < |a| :: a[i].healthy == b[i].healthy
  }

  lemma {:induction false} SameHealthSameList(a: seq<Endpoint>, b: seq<Endpoint>)
    requires SameHealth(a, b)
    ensures Healthy(a) == Healthy(b)
  {
    if a != [] {
      var n := |a| - 1;
      assert a[n].healthy == b[n].healthy;
      forall i {:trigger a[..n][i]} | 0 <= i < n
        ensures a[..n][i].healthy == b[..n][i].healthy
      {
        assert a[i].healthy == b[i].healthy;
      }
      SameHealthSameList(a[..n], b[..n]);
    }
  }

  // ---------------------------------------------------------------- selections in a run

  /** The counter and the picks stay, or advance by one selection. */
  predicate Selected(servers: seq<Endpoint>, index: nat, picks: seq<nat>, index': nat, picks': seq<nat>)
  {
    var pick := Select(servers, index);
    if index' == index then picks' == picks else index' == index + 1 && pick.Some? && picks' == picks + [pick.value]
  }

  /** Nothing was selected for prefill, and health did not change. */
  predicate NoPrefillPick(s: State, t: State)
  {
    SameHealth(t.prefill, s.prefill) && t.prefillIndex == s.prefillIndex && t.prefillPicks == s.prefillPicks
  }

  lemma PrefillResume(s: State, i: nat)
    requires i < |s.requests| && Handles(s, s.requests[i].phase)
    ensures NoPrefillPick(s, ResumeStep(s, i))
  {
  }

  /** Only an arrival selects a prefill server, and only health events change the healthy list. */
  lemma PrefillStep(s: State, e: Event)
    ensures var t := Step(s, e);
      && (!e.SetPrefillHealth? ==> SameHealth(t.prefill, s.prefill))
      && Selected(s.prefill, s.prefillIndex, s.prefillPicks, t.prefillIndex, t.prefillPicks)
  {
    if e.Resume? && e.i < |s.requests| && Handles(s, s.requests[e.i].phase) { PrefillResume(s, e.i); }
  }

  /** Nothing was selected for decode, and health did not change. */
  predicate NoDecodePick(s: State, t: State)
  {
    SameHealth(t.decode, s.decode) && t.decodeIndex == s.decodeIndex && t.decodePicks == s.decodePicks
  }

  lemma BeginDecodePicks(s: State, i: nat, d: nat)
    requires i < |s.requests| && d < |s.decode|
    ensures NoDecodePick(s, BeginDecode(s, i, d)) && NoDecodePick(s, EndDecode(s, i, d))
  {
  }

  lemma RoutePicks(s: State, i: nat)
    requires i < |s.requests|
    ensures var t := Route(s, i);
      SameHealth(t.decode, s.decode) && Selected(s.decode, s.decodeIndex, s.decodePicks, t.decodeIndex, t.decodePicks)
  {
  }

  lemma DecodeResume(s: State, i: nat)
    requires i < |s.requests| && Handles(s, s.requests[i].phase)
    ensures var t := ResumeStep(s, i);
      SameHealth(t.decode, s.decode) && Selected(s.decode, s.decodeIndex, s.decodePicks, t.decodeIndex, t.decodePicks)
  {
    match s.requests[i].phase
    case Prefilling(p) => RoutePicks(EndPrefill(s, i, p), i);
    case StartYield(d) => BeginDecodePicks(s, i, d);
    case Decoding(d, _) => BeginDecodePicks(s, i, d);
    case TokenYield(d, _) => BeginDecodePicks(s, i, d);
    case _ =>
  }

  /** Only the end of a prefill selects a decode server. */
  lemma DecodeStep(s: State, e: Event)
    ensures var t := Step(s, e);
      && (!e.SetDecodeHealth? ==> SameHealth(t.decode, s.decode))
      && Selected(s.decode, s.decodeIndex, s.decodePicks, t.decodeIndex, t.decodePicks)
  {
    if e.Resume? && e.i < |s.requests| && Handles(s, s.requests[e.i].phase) { DecodeResume(s, e.i); }
  }

  /** The picks made since the counter stood at `start`, with the healthy list h all along. */
  ghost predicate PicksFrom(h: seq<nat>, start: nat, before: seq<nat>, index: nat, picks: seq<nat>)
  {
    && index >= start && (index > start ==> h != [])
    && picks == before + if h == [] then [] else Window(h, start, index - start)
  }

  lemma PicksStep(h: seq<nat>, start: nat, before: seq<nat>, servers: seq<Endpoint>, index: nat, picks: seq<nat>,
                  index': nat, picks': seq<nat>)
    requires PicksFrom(h, start, before, index, picks) && Healthy(servers) == h
    requires Selected(servers, index, picks, index', picks')
    ensures PicksFrom(h, start, before, index', picks')
  {
    if index' != index {
      assert Window(h, start, index' - start) == Window(h, start, index - start) + [h[Mod(index, |h|)]];
    }
  }

  /** The healthy set is the same before every event; health may be set to the value it has. */
  ghost predicate PrefillSteady(s: State, events: seq<Event>)
  {
    forall k: nat | k < |events| :: Healthy(Run(s, events[..k]).prefill) == Healthy(s.prefill)
  }

  ghost predicate DecodeSteady(s: State, events: seq<Event>)
  {
    forall k: nat | k < |events| :: Healthy(Run(s, events[..k]).decode) == Healthy(s.decode)
  }

  lemma {:induction false} PrefillPicks(s: State, events: seq<Event>)
    requires PrefillSteady(s, events)
    ensures var t := Run(s, events);
      PicksFrom(Healthy(s.prefill), s.prefillIndex, s.prefillPicks, t.prefillIndex, t.prefillPicks)
  {
    if events != [] {
      var n := |events| - 1;
      forall k: nat | k < n ensures Healthy(Run(s, events[..n][..k]).prefill) == Healthy(s.prefill) {
        assert events[..n][..k] == events[..k];
      }
      PrefillPicks(s, events[..n]);
      var m := Run(s, events[..n]);
      var t := Step(m, events[n]);
      assert Run(s, events) == t;
      PrefillStep(m, events[n]);
      PicksStep(Healthy(s.prefill), s.prefillIndex, s.prefillPicks, m.prefill, m.prefillIndex, m.prefillPicks,
                t.prefillIndex, t.prefillPicks);
    }
  }

  lemma {:induction false} DecodePicks(s: State, events: seq<Event>)
    requires DecodeSteady(s, events)
    ensures var t := Run(s, events);
      PicksFrom(Healthy(s.decode), s.decodeIndex, s.decodePicks, t.decodeIndex, t.decodePicks)
  {
    if events != [] {
      var n := |events| - 1;
      forall k: nat | k < n ensures Healthy(Run(s, events[..n][..k]).decode) == Healthy(s.decode) {
        assert events[..n][..k] == events[..k];
      }
      DecodePicks(s, events[..n]);
      var m := Run(s, events[..n]);
      var t := Step(m, events[n]);
      assert Run(s, events) == t;
      DecodeStep(m, events[n]);
      PicksStep(Healthy(s.decode), s.decodeIndex, s.decodePicks, m.decode, m.decodeIndex, m.decodePicks,
                t.decodeIndex, t.decodePicks);
    }
  }

  /** Without health events both healthy sets stay the same. */
  lemma {:induction false} OnlyHealthEventsUnsettle(s: State, events: seq<Event>)
    ensures (forall e | e in events :: !e.SetPrefillHealth?) ==>
      PrefillSteady(s, events) && Healthy(Run(s, events).prefill) == Healthy(s.prefill)
    ensures (forall e | e in events :: !e.SetDecodeHealth?) ==>
      DecodeSteady(s, events) && Healthy(Run(s, events).decode) == Healthy(s.decode)
  {
    if events != [] {
      var n := |events| - 1;
      OnlyHealthEventsUnsettle(s, events[..n]);
      var m := Run(s, events[..n]);
      PrefillStep(m, events[n]);
      DecodeStep(m, events[n]);
      assert events[n] in events;
      if !events[n].SetPrefillHealth? { SameHealthSameList(Step(m, events[n]).prefill, m.prefill); }
      if !events[n].SetDecodeHealth? { SameHealthSameList(Step(m, events[n]).decode, m.decode); }
      forall k: nat | k < n ensures events[..n][..k] == events[..k] {}
    }
  }

  // ---------------------------------------------------------------- fairness

  /** Any stretch of picks treats the healthy servers alike: k whole rounds pick each exactly k times, and otherwise
      their counts differ by at most one. */
  ghost predicate FairTo(h: seq<nat>, stretch: seq<nat>)
    requires h != []
  {
    && (forall x | x in h :: |stretch| / |h| <= Times(x, stretch) <= |stretch| / |h| + 1)
    && (|stretch| % |h| == 0 ==> forall x | x in h :: Times(x, stretch) == |stretch| / |h|)
    && forall x, y | x in h && y in h :: Times(x, stretch) - Times(y, stretch) <= 1
  }

  lemma WindowFair(h: seq<nat>, start: nat, w: nat)
    requires h != [] && Distinct(h)
    ensures FairTo(h, Window(h, start, w))
  {
    var m := |h|;
    DivModAgree(w, m);
    CeilOf(w, m);
    forall x | x in h
      ensures Div(w, m) <= Times(x, Window(h, start, w)) <= CeilDiv(w, m)
    {
      var j :| 0 <= j < m && h[j] == x;
      TimesInWindow(h, j, start, w);
      LandedBounds(m, j, start, w);
    }
  }

  lemma StretchIsWindow(h: seq<nat>, start: nat, before: seq<nat>, index: nat, picks: seq<nat>, a: nat, b: nat)
    requires PicksFrom(h, start, before, index, picks) && h != [] && |before| <= a <= b <= |picks|
    ensures picks[a..b] == Window(h, start + a - |before|, b - a)
  {
  }

  lemma PicksFair(h: seq<nat>, start: nat, before: seq<nat>, index: nat, picks: seq<nat>, a: nat, b: nat)
    requires PicksFrom(h, start, before, index, picks) && h != [] && Distinct(h) && |before| <= a <= b <= |picks|
    ensures FairTo(h, picks[a..b])
  {
    StretchIsWindow(h, start, before, index, picks, a, b);
    WindowFair(h, start + a - |before|, b - a);
  }

  /** While the healthy set stays the same, every stretch of consecutive prefill selections is fair, whatever the
      counter was and however requests interleave. */
  lemma PrefillSelectionFair(s: State, events: seq<Event>, a: nat, b: nat)
    requires PrefillSteady(s, events)
    requires |s.prefillPicks| <= a <= b <= |Run(s, events).prefillPicks| && Healthy(s.prefill) != []
    ensures FairTo(Healthy(s.prefill), Run(s, events).prefillPicks[a..b])
  {
    PrefillPicks(s, events);
    HealthyDistinct(s.prefill);
    PicksFair(Healthy(s.prefill), s.prefillIndex, s.prefillPicks,
              Run(s, events).prefillIndex, Run(s, events).prefillPicks, a, b);
  }

  /** The same for decode selections. */
  lemma DecodeSelectionFair(s: State, events: seq<Event>, a: nat, b: nat)
    requires DecodeSteady(s, events)
    requires |s.decodePicks| <= a <= b <= |Run(s, events).decodePicks| && Healthy(s.decode) != []
    ensures FairTo(Healthy(s.decode), Run(s, events).decodePicks[a..b])
  {
    DecodePicks(s, events);
    HealthyDistinct(s.decode);
    PicksFair(Healthy(s.decode), s.decodeIndex, s.decodePicks,
              Run(s, events).decodeIndex, Run(s, events).decodePicks, a, b);
  }
}
