/** What whole runs of the prefill protocol guarantee: token conservation, no chunk stored twice, reuse of
shared prompt prefixes.  A run starts from an empty stack and is any sequence of steps of any requests. */
module PrefillRuns {
  import opened Arith
  import opened Chain
  import opened PrefixStack
  import opened Prefill
  import opened Sums
  import opened Tokens

  function Reached<T(==)>(cs: Pos, events: seq<Event<T>>): Server<T> { Run(cs, EmptyServer(), events) }

  lemma ReachedInv<T>(cs: Pos, events: seq<Event<T>>)
    ensures Inv(cs, Reached(cs, events))
  {
    RunKeeps(cs, EmptyServer(), events);
  }

  // ---------------------------------------------------------------- conservation

  /** The tokens of a request's partial chunk, and its chunks. */
  function TailOf<T>(cs: Pos): Request<T> -> int { (r: Request<T>) => |r.tokens| % cs }

  function ChunksOf<T>(cs: Pos): Request<T> -> int { (r: Request<T>) => (|r.tokens| + cs - 1) / cs }

  function TailMod<T>(cs: Pos): Request<T> -> int { (r: Request<T>) => Mod(|r.tokens|, cs) }

  function CeilChunks<T>(cs: Pos): Request<T> -> int { (r: Request<T>) => CeilDiv(|r.tokens|, cs) }

  lemma SameTotals<T>(cs: Pos, requests: seq<Request<T>>)
    ensures Sum(TailOf(cs), requests) == Sum(TailMod(cs), requests)
    ensures Sum(ChunksOf(cs), requests) == Sum(CeilChunks(cs), requests)
  {
    forall i {:trigger requests[i]} | 0 <= i < |requests|
      ensures TailOf(cs)(requests[i]) == TailMod(cs)(requests[i])
      ensures ChunksOf(cs)(requests[i]) == CeilChunks(cs)(requests[i])
    {
      DivModAgree(|requests[i].tokens|, cs);
      DivModAgree(|requests[i].tokens| + cs - 1, cs);
    }
    SumEq(TailOf(cs), TailMod(cs), requests);
    SumEq(ChunksOf(cs), CeilChunks(cs), requests);
  }

  lemma CompletedShares<T>(cs: Pos, prefixes: set<seq<T>>, r: Request<T>)
    requires RequestOk(cs, prefixes, r) && r.phase.Completed?
    ensures Share(cs, HitTokens, r) + Share(cs, StoredTokens, r) == AlignDown(|r.tokens|, cs)
    ensures Share(cs, RetrievedTokens, r) == Share(cs, HitTokens, r)
    ensures Share(cs, CacheHits, r) + Share(cs, CacheMisses, r) == CeilDiv(|r.tokens|, cs)
  {
    CeilDivAddMultiple(r.Hit(), |r.tokens| - r.Hit(), cs);
  }

  /** In every run that completes its requests, however they interleave: every token looked up was hit, was
      stored, or is in a trailing partial chunk; every hit was read back; the server counted every chunk. */
  lemma TokenConservation<T>(cs: Pos, events: seq<Event<T>>)
    requires forall r | r in Reached(cs, events).requests :: r.phase.Completed?
    ensures var s := Reached(cs, events);
      && s.stack.stats.hitTokens + s.stack.stats.storedTokens + Sum(TailOf(cs), s.requests)
         == s.stack.stats.lookupTokens
      && s.stack.stats.retrievedTokens == s.stack.stats.hitTokens
      && s.cacheHits + s.cacheMisses == Sum(ChunksOf(cs), s.requests)
      && cs * s.cacheHits == s.stack.stats.hitTokens
  {
    var s := Reached(cs, events);
    ReachedInv(cs, events);
    forall i | 0 <= i < |s.requests|
      ensures RequestOk(cs, s.stack.prefixes, s.requests[i]) && s.requests[i].phase.Completed?
    {
    }
    BalanceCompleted(cs, s.stack.prefixes, s.requests);
    SameTotals(cs, s.requests);
    HitsInChunks(cs, s.stack.prefixes, s.requests);
    assert forall c :: Count(s, c) == Sum(ShareOf(cs, c), s.requests);
    assert Count(s, HitTokens) == s.stack.stats.hitTokens && Count(s, StoredTokens) == s.stack.stats.storedTokens;
    assert Count(s, LookupTokens) == s.stack.stats.lookupTokens && Count(s, CacheHits) == s.cacheHits;
    assert Count(s, RetrievedTokens) == s.stack.stats.retrievedTokens && Count(s, CacheMisses) == s.cacheMisses;
  }

  /** Cache hits count chunks, hit tokens the tokens in them. */
  lemma {:induction false} HitsInChunks<T>(cs: Pos, prefixes: set<seq<T>>, requests: seq<Request<T>>)
    requires forall i {:trigger requests[i]} | 0 <= i < |requests| ::
      RequestOk(cs, prefixes, requests[i]) && requests[i].phase.Completed?
    ensures cs * Sum(ShareOf(cs, CacheHits), requests) == Sum(ShareOf(cs, HitTokens), requests)
  {
    if requests != [] {
      var n := |requests| - 1;
      HitsInChunks(cs, prefixes, requests[..n]);
      DivMod(requests[n].Hit(), cs);
      OffsetAgrees(cs, Div(requests[n].Hit(), cs));
      ScaledSum(cs, Sum(ShareOf(cs, CacheHits), requests[..n]), Div(requests[n].Hit(), cs));
    }
  }

  lemma ScaledSum(d: int, x: int, y: int)
    ensures d * (x + y) == d * x + d * y && d * y == y * d
  {
  }

  function AlignedOf<T>(cs: Pos): Request<T> -> int { (r: Request<T>) => AlignDown(|r.tokens|, cs) }

  lemma BalanceCompleted<T>(cs: Pos, prefixes: set<seq<T>>, requests: seq<Request<T>>)
    requires forall i {:trigger requests[i]} | 0 <= i < |requests| ::
      RequestOk(cs, prefixes, requests[i]) && requests[i].phase.Completed?
    ensures Sum(ShareOf(cs, HitTokens), requests) + Sum(ShareOf(cs, StoredTokens), requests)
            + Sum(TailMod(cs), requests) == Sum(ShareOf(cs, LookupTokens), requests)
    ensures Sum(ShareOf(cs, RetrievedTokens), requests) == Sum(ShareOf(cs, HitTokens), requests)
    ensures Sum(ShareOf(cs, CacheHits), requests) + Sum(ShareOf(cs, CacheMisses), requests)
         == Sum(CeilChunks(cs), requests)
  {
    forall i {:trigger requests[i]} | 0 <= i < |requests|
      ensures AlignedOf(cs)(requests[i]) == ShareOf(cs, HitTokens)(requests[i]) + ShareOf(cs, StoredTokens)(requests[i])
      ensures ShareOf(cs, LookupTokens)(requests[i]) == AlignedOf(cs)(requests[i]) + TailMod(cs)(requests[i])
      ensures ShareOf(cs, RetrievedTokens)(requests[i]) == ShareOf(cs, HitTokens)(requests[i])
      ensures CeilChunks(cs)(requests[i]) == ShareOf(cs, CacheHits)(requests[i]) + ShareOf(cs, CacheMisses)(requests[i])
    {
      CompletedShares(cs, prefixes, requests[i]);
    }
    SumPlus(ShareOf(cs, HitTokens), ShareOf(cs, StoredTokens), AlignedOf(cs), requests);
    SumPlus(AlignedOf(cs), TailMod(cs), ShareOf(cs, LookupTokens), requests);
    SumEq(ShareOf(cs, RetrievedTokens), ShareOf(cs, HitTokens), requests);
    SumPlus(ShareOf(cs, CacheHits), ShareOf(cs, CacheMisses), CeilChunks(cs), requests);
  }

  function Retrieved<T>(): Request<T> -> int { (r: Request<T>) => if r.Hit() > 0 then 1 else 0 }

  function StoredNew<T>(cs: Pos): Request<T> -> int
  {
    (r: Request<T>) => if AlignDown(|r.tokens|, cs) > r.Hit() then 1 else 0
  }

  lemma {:induction false} CountCompleted<T>(cs: Pos, requests: seq<Request<T>>)
    requires forall i {:trigger requests[i]} | 0 <= i < |requests| :: requests[i].phase.Completed?
    ensures Sum(ShareOf(cs, Lookups), requests) == |requests|
    ensures Sum(ShareOf(cs, PromptTokens), requests) == Sum(ShareOf(cs, LookupTokens), requests)
  {
    if requests != [] { CountCompleted(cs, requests[..|requests| - 1]); }
  }

  /** Each completed request was one lookup, a retrieve exactly if it hit, and a store exactly if it missed a full
      chunk; the server's prompt tokens are those looked up. */
  lemma OperationsConserved<T>(cs: Pos, events: seq<Event<T>>)
    requires forall r | r in Reached(cs, events).requests :: r.phase.Completed?
    ensures var s := Reached(cs, events);
      && s.stack.stats.lookups == |s.requests| && s.promptTokens == s.stack.stats.lookupTokens
      && s.stack.stats.retrieves == Sum(Retrieved(), s.requests)
      && s.stack.stats.stores == Sum(StoredNew(cs), s.requests)
  {
    var s := Reached(cs, events);
    ReachedInv(cs, events);
    forall i | 0 <= i < |s.requests| ensures s.requests[i].phase.Completed? {}
    CountCompleted(cs, s.requests);
    SumEq(ShareOf(cs, Retrieves), Retrieved(), s.requests);
    SumEq(ShareOf(cs, Stores), StoredNew(cs), s.requests);
    assert Count(s, Lookups) == s.stack.stats.lookups && Count(s, PromptTokens) == s.promptTokens;
    assert Count(s, LookupTokens) == s.stack.stats.lookupTokens;
    assert Count(s, Retrieves) == s.stack.stats.retrieves && Count(s, Stores) == s.stack.stats.stores;
  }

  // ---------------------------------------------------------------- no chunk stored twice

  /** In every interleaving, the tokens submitted for storage pay for every cached prefix. */
  lemma StoredCoversPrefixes<T>(cs: Pos, events: seq<Event<T>>)
    ensures Reached(cs, events).stack.stats.storedTokens >= cs * |Reached(cs, events).stack.prefixes|
  {
    ReachedInv(cs, events);
    OffsetAgrees(cs, |Reached(cs, events).stack.prefixes|);
  }

  lemma HitOfAligned<T>(cs: Pos, prefixes: set<seq<T>>, tokens: seq<T>, hit: nat)
    requires hit <= |tokens| && Mod(hit, cs) == 0 && CachedTo(prefixes, tokens, hit)
    ensures AlignDown(|tokens|, cs) <= |tokens|
    ensures IsHit(cs, prefixes, tokens, hit)
       <==> prefixes !! PrefixesAbove(cs, tokens[..AlignDown(|tokens|, cs)], hit)
  {
    var n := AlignDown(|tokens|, cs);
    AlignedIsMultiple(|tokens|, cs);
    var added := PrefixesAbove(cs, tokens[..n], hit);
    forall j: nat | hit < j <= |tokens| && Mod(j, cs) == 0
      ensures j <= n && tokens[..n][..j] == tokens[..j] && tokens[..j] in added
    {
      MultipleBelow(j, |tokens|, cs);
      assert tokens[..n][..j] == tokens[..j];
    }
    if !(prefixes !! added) {
      var p :| p in prefixes && p in added;
      assert p == tokens[..|p|];
    }
  }

  /** When exactly a store wastes nothing: the tokens it submits are chunk_size for each prefix it adds if and
      only if no longer prefix of the request became cached since its lookup. */
  lemma StoreExactIff<T>(cs: Pos, s: Server<T>, i: nat)
    requires Inv(cs, s) && i < |s.requests| && s.requests[i].phase.Fetched?
    ensures var s' := Step(cs, s, StoreNew(i));
      && s'.stack.stats.storedTokens - s.stack.stats.storedTokens >= cs * (|s'.stack.prefixes| - |s.stack.prefixes|)
      && (s'.stack.stats.storedTokens - s.stack.stats.storedTokens == cs * (|s'.stack.prefixes| - |s.stack.prefixes|)
          <==> IsHit(cs, s.stack.prefixes, s.requests[i].tokens, s.requests[i].Hit()))
  {
    var r, s', before := s.requests[i], Step(cs, s, StoreNew(i)), s.stack.prefixes;
    assert RequestOk(cs, before, r);
    SubmittedTokens(cs, r.tokens, r.Hit());
    StoreNewCaches(cs, s.stack, r.tokens, r.Hit());
    HitOfAligned(cs, before, r.tokens, r.Hit());
    var added := PrefixesAbove(cs, r.tokens[..AlignDown(|r.tokens|, cs)], r.Hit());
    NewCount(before, added);
    assert s'.stack.prefixes == before + added;
    PaysExactly(cs, |added|, |s'.stack.prefixes| - |before|);
  }

  lemma PaysExactly(d: Pos, paid: nat, added: int)
    requires added <= paid
    ensures Offset(d, paid) >= d * added && (Offset(d, paid) == d * added <==> paid == added)
  {
    OffsetAgrees(d, paid);
    assert d * paid - d * added == d * (paid - added);
  }

  /** One request served with nobody else in between: five steps of the protocol in a row. */
  function Serve<T(==)>(cs: Pos, s: Server<T>, tokens: seq<T>): Server<T>
  {
    var i := |s.requests|;
    Step(cs, Step(cs, BeforeStore(cs, s, tokens), StoreNew(i)), Account(i))
  }

  function ServeAll<T(==)>(cs: Pos, prompts: seq<seq<T>>): Server<T>
  {
    if prompts == [] then EmptyServer() else Serve(cs, ServeAll(cs, prompts[..|prompts| - 1]), prompts[|prompts| - 1])
  }

  ghost predicate Exact<T>(cs: Pos, s: Server<T>)
  {
    Inv(cs, s) && s.stack.stats.storedTokens == Offset(cs, |s.stack.prefixes|)
  }

  /** The state in which a request served alone reaches its store. */
  function BeforeStore<T(==)>(cs: Pos, s: Server<T>, tokens: seq<T>): Server<T>
  {
    var i := |s.requests|;
    Step(cs, Step(cs, Step(cs, s, Arrive(tokens)), Lookup(i)), Fetch(i))
  }

  lemma BeforeStoreIs<T>(cs: Pos, s: Server<T>, tokens: seq<T>)
    requires Inv(cs, s)
    ensures var c := BeforeStore(cs, s, tokens);
      && Inv(cs, c) && c.stack.prefixes == s.stack.prefixes
      && c.stack.stats.storedTokens == s.stack.stats.storedTokens
      && |c.requests| == |s.requests| + 1
      && c.requests[|s.requests|] == Request(tokens, Fetched(HitLength(cs, s.stack.prefixes, tokens)))
  {
    var i := |s.requests|;
    var a := Step(cs, s, Arrive(tokens));
    var b := Step(cs, a, Lookup(i));
    StepKeeps(cs, s, Arrive(tokens));
    StepKeeps(cs, a, Lookup(i));
    StepKeeps(cs, b, Fetch(i));
    HitLengthIsHit(cs, s.stack.prefixes, tokens);
  }

  lemma ServeKeepsExact<T>(cs: Pos, s: Server<T>, tokens: seq<T>)
    requires Exact(cs, s)
    ensures Exact(cs, Serve(cs, s, tokens))
  {
    var i, c := |s.requests|, BeforeStore(cs, s, tokens);
    BeforeStoreIs(cs, s, tokens);
    HitLengthIsHit(cs, s.stack.prefixes, tokens);
    StoreExactIff(cs, c, i);
    StoreKeepsExact(cs, c, i);
    StepKeeps(cs, Step(cs, c, StoreNew(i)), Account(i));
  }

  lemma StoreKeepsExact<T>(cs: Pos, c: Server<T>, i: nat)
    requires Exact(cs, c)
    requires var d := Step(cs, c, StoreNew(i));
      d.stack.stats.storedTokens - c.stack.stats.storedTokens == cs * (|d.stack.prefixes| - |c.stack.prefixes|)
    ensures Exact(cs, Step(cs, c, StoreNew(i)))
  {
    var d := Step(cs, c, StoreNew(i));
    StepKeeps(cs, c, StoreNew(i));
    PaidInFull(cs, c.stack.stats.storedTokens, |c.stack.prefixes|, d.stack.stats.storedTokens, |d.stack.prefixes|);
  }

  lemma PaidInFull(d: Pos, before: int, n: nat, after: int, m: nat)
    requires before == Offset(d, n) && after - before == d * (m - n)
    ensures after == Offset(d, m)
  {
    OffsetAgrees(d, n);
    OffsetAgrees(d, m);
    assert d * (m - n) == d * m - d * n;
  }

  lemma {:induction false} ServeAllExact<T>(cs: Pos, prompts: seq<seq<T>>)
    ensures Exact(cs, ServeAll(cs, prompts))
  {
    if prompts != [] {
      var n := |prompts| - 1;
      ServeAllExact(cs, prompts[..n]);
      ServeKeepsExact(cs, ServeAll(cs, prompts[..n]), prompts[n]);
    }
  }

  /** No chunk is stored twice: serving any prompts one after another, the tokens submitted for storage are
      exactly chunk_size for each distinct cached prefix. */
  lemma SequentialStoresOnce<T>(cs: Pos, prompts: seq<seq<T>>)
    ensures ServeAll(cs, prompts).stack.stats.storedTokens == cs * |ServeAll(cs, prompts).stack.prefixes|
  {
    ServeAllExact(cs, prompts);
    ExactMeans(cs, ServeAll(cs, prompts));
  }

  lemma ExactMeans<T>(cs: Pos, s: Server<T>)
    ensures Exact(cs, s) ==> s.stack.stats.storedTokens == cs * |s.stack.prefixes|
  {
    OffsetAgrees(cs, |s.stack.prefixes|);
  }

  /** The sequential runs are among the interleaved ones. */
  lemma {:induction false} ServeAllIsARun<T>(cs: Pos, prompts: seq<seq<T>>) returns (events: seq<Event<T>>)
    ensures Reached(cs, events) == ServeAll(cs, prompts)
  {
    events := [];
    if prompts != [] {
      var n := |prompts| - 1;
      var init := ServeAllIsARun(cs, prompts[..n]);
      var i := |ServeAll(cs, prompts[..n]).requests|;
      var e1 := init + [Arrive(prompts[n])];
      var e2 := e1 + [Lookup(i)];
      var e3 := e2 + [Fetch(i)];
      var e4 := e3 + [StoreNew(i)];
      events := e4 + [Account(i)];
      RunSnoc(cs, init, Arrive(prompts[n]));
      RunSnoc(cs, e1, Lookup(i));
      RunSnoc(cs, e2, Fetch(i));
      RunSnoc(cs, e3, StoreNew(i));
      RunSnoc(cs, e4, Account(i));
    }
  }

  lemma RunSnoc<T>(cs: Pos, events: seq<Event<T>>, e: Event<T>)
    ensures Reached(cs, events + [e]) == Step(cs, Reached(cs, events), e)
  {
  }

  /** If this step is a store, the lookup it relies on is still the hit. */
  predicate StoreIsCurrent<T(==)>(cs: Pos, s: Server<T>, e: Event<T>)
  {
    e.StoreNew? && e.i < |s.requests| && s.requests[e.i].phase.Fetched? ==>
      IsHit(cs, s.stack.prefixes, s.requests[e.i].tokens, s.requests[e.i].Hit())
  }

  /** The tokens stored beyond what the cached prefixes account for. */
  function Waste<T(==)>(cs: Pos, s: Server<T>): int { s.stack.stats.storedTokens - cs * |s.stack.prefixes| }

  /** No step takes waste back, and exactly a store after an outdated lookup adds to it. */
  lemma WasteStep<T>(cs: Pos, s: Server<T>, e: Event<T>)
    requires Inv(cs, s)
    ensures Waste(cs, Step(cs, s, e)) >= Waste(cs, s)
    ensures Waste(cs, Step(cs, s, e)) == Waste(cs, s) <==> StoreIsCurrent(cs, s, e)
  {
    if e.StoreNew? && e.i < |s.requests| && s.requests[e.i].phase.Fetched? {
      StoreExactIff(cs, s, e.i);
      WasteGrows(cs, |s.stack.prefixes|, |Step(cs, s, e).stack.prefixes|);
    }
  }

  lemma WasteGrows(d: Pos, n: nat, m: nat)
    ensures d * (m - n) == d * m - d * n
  {
  }

  /** Every store of the run relies on a lookup that is still the hit. */
  ghost predicate StoresCurrent<T>(cs: Pos, events: seq<Event<T>>)
  {
    forall k: nat {:trigger events[k]} | k < |events| :: StoreIsCurrent(cs, Reached(cs, events[..k]), events[k])
  }

  lemma StoresCurrentNext<T>(cs: Pos, events: seq<Event<T>>)
    requires events != []
    ensures var n := |events| - 1;
      StoresCurrent(cs, events)
      <==> StoresCurrent(cs, events[..n]) && StoreIsCurrent(cs, Reached(cs, events[..n]), events[n])
  {
    hide StoreIsCurrent, Reached;
    var n := |events| - 1;
    forall k: nat {:trigger events[k]} | k < n
      ensures events[..n][..k] == events[..k] && events[..n][k] == events[k]
    {
    }
  }

  lemma WasteNonNegative<T>(cs: Pos, events: seq<Event<T>>)
    ensures Waste(cs, Reached(cs, events)) >= 0
  {
    StoredCoversPrefixes(cs, events);
  }

  lemma {:induction false} WastelessIff<T>(cs: Pos, events: seq<Event<T>>)
    ensures Waste(cs, Reached(cs, events)) == 0 <==> StoresCurrent(cs, events)
  {
    if events != [] {
      hide Inv, StoreIsCurrent, Step, StoresCurrent, Waste;
      var n := |events| - 1;
      WastelessIff(cs, events[..n]);
      WasteNonNegative(cs, events[..n]);
      ReachedInv(cs, events[..n]);
      WasteStep(cs, Reached(cs, events[..n]), events[n]);
      StoresCurrentNext(cs, events);
    }
  }

  /** In any interleaving no chunk is stored twice exactly when every store relies on a lookup that is still the hit. */
  lemma StoredOnceIff<T>(cs: Pos, events: seq<Event<T>>)
    ensures Reached(cs, events).stack.stats.storedTokens == cs * |Reached(cs, events).stack.prefixes|
       <==> StoresCurrent(cs, events)
  {
    WastelessIff(cs, events);
  }

  /** Two requests for the same one-chunk prompt that both look up before either stores. */
  function RacingPair<T>(p: seq<T>): seq<Event<T>>
  {
    [Arrive(p), Arrive(p), Lookup(0), Lookup(1), Fetch(0), Fetch(1), StoreNew(0), StoreNew(1)]
  }

  /** Interleaving can submit a chunk twice, so only the inequality holds of every run. */
  lemma RaceStoresTwice<T>(cs: Pos, p: seq<T>)
    requires |p| == cs
    ensures var s := Reached(cs, RacingPair(p));
      s.stack.prefixes == {p} && s.stack.stats.storedTokens == 2 * cs
  {
    var e := RacingPair(p);
    PrefixesOfOneChunk(cs, p);
    BothMissed(cs, p);
    RunSnoc(cs, e[..6], StoreNew(0));
    RunSnoc(cs, e[..7], StoreNew(1));
    assert e[..7] == e[..6] + [StoreNew(0)] && e == e[..7] + [StoreNew(1)];
    assert p[..|p|] == p;
  }

  lemma BothMissed<T>(cs: Pos, p: seq<T>)
    requires |p| == cs
    ensures Reached(cs, RacingPair(p)[..6]).requests == [Request(p, Fetched(0)), Request(p, Fetched(0))]
    ensures Reached(cs, RacingPair(p)[..6]).stack.prefixes == {}
    ensures Reached(cs, RacingPair(p)[..6]).stack.stats.storedTokens == 0
  {
    var e := RacingPair(p);
    HitLengthIsHit(cs, {}, p);
    assert e[..1] == [] + [e[0]] && e[..2] == e[..1] + [e[1]] && e[..3] == e[..2] + [e[2]];
    assert e[..4] == e[..3] + [e[3]] && e[..5] == e[..4] + [e[4]] && e[..6] == e[..5] + [e[5]];
    RunSnoc(cs, [], e[0]);
    RunSnoc(cs, e[..1], e[1]);
    RunSnoc(cs, e[..2], e[2]);
    RunSnoc(cs, e[..3], e[3]);
    RunSnoc(cs, e[..4], e[4]);
    RunSnoc(cs, e[..5], e[5]);
  }

  lemma PrefixesOfOneChunk<T>(cs: Pos, p: seq<T>)
    requires |p| == cs
    ensures PrefixesOf(cs, p) == {p} && AlignDown(|p|, cs) == |p|
  {
    forall k: nat | 0 < k < |p|
      ensures Mod(k, cs) != 0
    {
      NoMultipleBetween(0, k, cs);
    }
    assert p[..|p|] == p;
    assert Mod(cs, cs) == 0;
  }

  // ---------------------------------------------------------------- prefix reuse

  lemma HitAtLeast<T>(cs: Pos, prefixes: set<seq<T>>, tokens: seq<T>, k: nat)
    requires k <= |tokens| && Mod(k, cs) == 0 && CachedTo(prefixes, tokens, k)
    ensures HitLength(cs, prefixes, tokens) >= k
  {
    HitLengthIsHit(cs, prefixes, tokens);
  }

  /** Once a request has stored, every later state of the run serves its first m tokens to anyone who shares them. */
  lemma SharedTokensHit<T>(cs: Pos, events: seq<Event<T>>, later: seq<Event<T>>, i: nat, tokens: seq<T>, m: nat)
    requires i < |Reached(cs, events).requests| && Reached(cs, events).requests[i].HasStored()
    requires m <= |tokens| && m <= |Reached(cs, events).requests[i].tokens|
    requires tokens[..m] == Reached(cs, events).requests[i].tokens[..m]
    ensures HitLength(cs, Run(cs, Reached(cs, events), later).stack.prefixes, tokens) >= cs * (m / cs)
  {
    AlignedNatively(m, cs);
    var s := Reached(cs, events);
    var a, k := s.requests[i].tokens, AlignDown(m, cs);
    ReachedInv(cs, events);
    RunKeeps(cs, s, later);
    assert RequestOk(cs, s.stack.prefixes, s.requests[i]);
    AlignedIsMultiple(m, cs);
    AlignedIsMultiple(|a|, cs);
    MultipleBelow(k, |a|, cs);
    if k > 0 {
      TruncationCached(cs, s.stack.prefixes, a, AlignDown(|a|, cs), k);
      assert tokens[..k] == tokens[..m][..k] == a[..k];
    }
    HitAtLeast(cs, Run(cs, s, later).stack.prefixes, tokens, k);
  }

  /** End to end: when a processed prompt and a later prompt share their first `shared` bytes, every later
      lookup of the later prompt hits at least chunk_size * ((shared / 4) / chunk_size) tokens. */
  lemma SharedBytesHit(sha: Sha, cs: Pos, events: seq<Event<Token>>, later: seq<Event<Token>>, i: nat,
                       first: seq<Byte>, second: seq<Byte>, shared: nat)
    requires i < |Reached(cs, events).requests| && Reached(cs, events).requests[i].HasStored()
    requires Reached(cs, events).requests[i].tokens == Tokenize(sha, Granule(4.0), first)
    requires shared <= |first| && shared <= |second| && first[..shared] == second[..shared]
    ensures HitLength(cs, Run(cs, Reached(cs, events), later).stack.prefixes, Tokenize(sha, Granule(4.0), second))
         >= cs * ((shared / 4) / cs)
  {
    assert Granule(4.0) == 4;
    SharedPrefixSharesImages(TokenOf(sha), 4, first, second, shared);
    DivModAgree(shared, 4);
    SharedTokensHit(cs, events, later, i, Tokenize(sha, 4, second), shared / 4);
  }

  /** Re-sending a processed prompt hits every full chunk and issues no store. */
  lemma ResendHitsEverything<T>(cs: Pos, events: seq<Event<T>>, later: seq<Event<T>>, i: nat)
    requires i < |Reached(cs, events).requests| && Reached(cs, events).requests[i].HasStored()
    ensures var tokens := Reached(cs, events).requests[i].tokens;
      var stack := Run(cs, Reached(cs, events), later).stack;
      && HitLength(cs, stack.prefixes, tokens) == cs * (|tokens| / cs)
      && StoreNewStack(cs, stack, tokens, HitLength(cs, stack.prefixes, tokens)) == stack
  {
    var tokens := Reached(cs, events).requests[i].tokens;
    var prefixes := Run(cs, Reached(cs, events), later).stack.prefixes;
    SharedTokensHit(cs, events, later, i, tokens, |tokens|);
    HitLengthIsHit(cs, prefixes, tokens);
    MultipleBelow(HitLength(cs, prefixes, tokens), |tokens|, cs);
    AlignedNatively(|tokens|, cs);
  }
}
