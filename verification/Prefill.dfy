/** The prefill protocol of the combined and prefill servers against the prefix stack
(src/kvbench/servers/combined.py, src/kvbench/servers/prefill.py).

A request looks its tokens up, retrieves the hit, sleeps for the simulated compute, stores its new full
chunks and updates the server counters.  Every KV call and every counter update is a step of its own, so the
runs below include every interleaving of concurrent requests, and every request that is abandoned midway. */
module Prefill {
  import opened Arith
  import opened PrefixStack
  import opened Sums

  datatype Phase =
    | Arrived
    | LookedUp(hit: nat)
    | Fetched(hit: nat)
    | Stored(hit: nat)
    | Completed(hit: nat)

  datatype Request<T> = Request(tokens: seq<T>, phase: Phase) {
    function Hit(): nat { if phase.Arrived? then 0 else phase.hit }

    predicate HasFetched() { phase.Fetched? || phase.Stored? || phase.Completed? }

    predicate HasStored() { phase.Stored? || phase.Completed? }
  }

  datatype Server<T(==)> = Server(stack: Stack<T>, promptTokens: nat, cacheHits: nat, cacheMisses: nat,
                                  requests: seq<Request<T>>)

  function EmptyServer<T(==)>(): Server<T> { Server(EmptyStack(), 0, 0, 0, []) }

  datatype Event<T> =
    | Arrive(tokens: seq<T>)
    | Lookup(i: nat)
    | Fetch(i: nat)
    | StoreNew(i: nat)
    | Account(i: nat)

  // ---------------------------------------------------------------- the steps

  function Advance<T(==)>(s: Server<T>, i: nat, stack: Stack<T>, phase: Phase): Server<T>
    requires i < |s.requests|
  {
    s.(stack := stack, requests := s.requests[i := s.requests[i].(phase := phase)])
  }

  function FetchStack<T(==)>(cs: Pos, stack: Stack<T>, tokens: seq<T>, hit: nat): Stack<T>
    requires hit <= |tokens|
  {
    if hit > 0 then RetrieveStep(cs, stack, tokens[..hit]) else stack
  }

  function StoreNewStack<T(==)>(cs: Pos, stack: Stack<T>, tokens: seq<T>, hit: nat): Stack<T>
    requires hit <= |tokens|
  {
    var storeEnd := AlignDown(|tokens|, cs);
    if |tokens| - hit > 0 && storeEnd > hit then StoreStep(cs, stack, tokens[..storeEnd], hit) else stack
  }

  /** One step.  An event that is not enabled changes nothing; a hit longer than its tokens never occurs. */
  function Step<T(==)>(cs: Pos, s: Server<T>, e: Event<T>): Server<T>
  {
    match e
    case Arrive(tokens) => s.(requests := s.requests + [Request(tokens, Arrived)])
    case Lookup(i) =>
      if i < |s.requests| && s.requests[i].phase.Arrived? then
        var tokens := s.requests[i].tokens;
        Advance(s, i, LookupStep(cs, s.stack, tokens), LookedUp(HitLength(cs, s.stack.prefixes, tokens)))
      else s
    case Fetch(i) =>
      if i < |s.requests| && s.requests[i].phase.LookedUp? && s.requests[i].Hit() <= |s.requests[i].tokens| then
        var r := s.requests[i];
        Advance(s, i, FetchStack(cs, s.stack, r.tokens, r.Hit()), Fetched(r.Hit()))
      else s
    case StoreNew(i) =>
      if i < |s.requests| && s.requests[i].phase.Fetched? && s.requests[i].Hit() <= |s.requests[i].tokens| then
        var r := s.requests[i];
        Advance(s, i, StoreNewStack(cs, s.stack, r.tokens, r.Hit()), Stored(r.Hit()))
      else s
    case Account(i) =>
      if i < |s.requests| && s.requests[i].phase.Stored? && s.requests[i].Hit() <= |s.requests[i].tokens| then
        var r := s.requests[i];
        var t := Advance(s, i, s.stack, Completed(r.Hit()));
        t.(promptTokens := t.promptTokens + |r.tokens|, cacheHits := t.cacheHits + Div(r.Hit(), cs),
           cacheMisses := t.cacheMisses + CeilDiv(|r.tokens| - r.Hit(), cs))
      else s
  }

  function Run<T(==)>(cs: Pos, s: Server<T>, events: seq<Event<T>>): Server<T>
    decreases |events|
  {
    if events == [] then s else Step(cs, Run(cs, s, events[..|events| - 1]), events[|events| - 1])
  }

  // ---------------------------------------------------------------- what each request contributes

  /** The counters the runs balance: the stack's seven, and the server's three. */
  datatype Counter =
    | Lookups | LookupTokens | HitTokens | Retrieves | RetrievedTokens | Stores | StoredTokens
    | PromptTokens | CacheHits | CacheMisses

  function Count<T(==)>(s: Server<T>, c: Counter): int
  {
    match c
    case Lookups => s.stack.stats.lookups
    case LookupTokens => s.stack.stats.lookupTokens
    case HitTokens => s.stack.stats.hitTokens
    case Retrieves => s.stack.stats.retrieves
    case RetrievedTokens => s.stack.stats.retrievedTokens
    case Stores => s.stack.stats.stores
    case StoredTokens => s.stack.stats.storedTokens
    case PromptTokens => s.promptTokens
    case CacheHits => s.cacheHits
    case CacheMisses => s.cacheMisses
  }

  /** What one request has added to a counter so far. */
  function Share<T>(cs: Pos, c: Counter, r: Request<T>): int
  {
    match c
    case Lookups => if r.phase.Arrived? then 0 else 1
    case LookupTokens => if r.phase.Arrived? then 0 else |r.tokens|
    case HitTokens => r.Hit()
    case Retrieves => if r.HasFetched() && r.Hit() > 0 then 1 else 0
    case RetrievedTokens => if r.HasFetched() then r.Hit() else 0
    case Stores => if r.HasStored() && AlignDown(|r.tokens|, cs) > r.Hit() then 1 else 0
    case StoredTokens => if r.HasStored() then AlignDown(|r.tokens|, cs) - r.Hit() else 0
    case PromptTokens => if r.phase.Completed? then |r.tokens| else 0
    case CacheHits => if r.phase.Completed? then Div(r.Hit(), cs) else 0
    case CacheMisses => if r.phase.Completed? && r.Hit() <= |r.tokens| then CeilDiv(|r.tokens| - r.Hit(), cs) else 0
  }

  function ShareOf<T>(cs: Pos, c: Counter): Request<T> -> int { (r: Request<T>) => Share(cs, c, r) }

  // ---------------------------------------------------------------- the invariant of every run

  predicate CachedTo<T(==)>(prefixes: set<seq<T>>, tokens: seq<T>, k: nat)
    requires k <= |tokens|
  {
    k > 0 ==> tokens[..k] in prefixes
  }

  /** A hit is a cached whole number of chunks; once stored, every full chunk of the request is cached. */
  predicate RequestOk<T(==)>(cs: Pos, prefixes: set<seq<T>>, r: Request<T>)
  {
    && r.Hit() <= |r.tokens| && Mod(r.Hit(), cs) == 0 && CachedTo(prefixes, r.tokens, r.Hit())
    && (r.HasStored() ==> CachedTo(prefixes, r.tokens, AlignDown(|r.tokens|, cs)))
  }

  predicate RequestsOk<T(==)>(cs: Pos, prefixes: set<seq<T>>, requests: seq<Request<T>>)
  {
    forall i | 0 <= i < |requests| :: RequestOk(cs, prefixes, requests[i])
  }

  /** Every counter is the sum of the requests' shares. */
  ghost predicate Balanced<T>(cs: Pos, s: Server<T>)
  {
    forall c :: Count(s, c) == Sum(ShareOf(cs, c), s.requests)
  }

  /** A step that advances one request keeps the balance if it adds to each counter what it adds to the share. */
  lemma AdvanceBalances<T>(cs: Pos, s: Server<T>, i: nat, s': Server<T>)
    requires Balanced(cs, s) && i < |s.requests|
    requires |s'.requests| == |s.requests| && s'.requests == s.requests[i := s'.requests[i]]
    requires forall c :: Count(s', c) - Count(s, c) == Share(cs, c, s'.requests[i]) - Share(cs, c, s.requests[i])
    ensures Balanced(cs, s')
  {
    forall c
      ensures Count(s', c) == Sum(ShareOf(cs, c), s'.requests)
    {
      SumUpdate(ShareOf(cs, c), s.requests, i, s'.requests[i]);
    }
  }

  ghost predicate Inv<T>(cs: Pos, s: Server<T>)
  {
    && Closed(cs, s.stack.prefixes)
    && RequestsOk(cs, s.stack.prefixes, s.requests)
    && Balanced(cs, s)
    && s.stack.stats.storedTokens >= Offset(cs, |s.stack.prefixes|)
  }

  lemma ArriveKeeps<T>(cs: Pos, s: Server<T>, tokens: seq<T>)
    requires Inv(cs, s)
    ensures Inv(cs, Step(cs, s, Arrive(tokens)))
  {
  }

  lemma LookupKeeps<T>(cs: Pos, s: Server<T>, i: nat)
    requires Inv(cs, s) && i < |s.requests| && s.requests[i].phase.Arrived?
    ensures Inv(cs, Step(cs, s, Lookup(i)))
  {
    var r, s' := s.requests[i], Step(cs, s, Lookup(i));
    HitLengthIsHit(cs, s.stack.prefixes, r.tokens);
    AdvanceBalances(cs, s, i, s');
  }

  /** Nothing is evicted, so a retrieve reads back exactly the hit the lookup promised. */
  lemma RetrieveReadsHit<T>(cs: Pos, prefixes: set<seq<T>>, tokens: seq<T>, hit: nat)
    requires 0 < hit <= |tokens| && Mod(hit, cs) == 0 && tokens[..hit] in prefixes
    ensures HitLength(cs, prefixes, tokens[..hit]) == hit
  {
    HitLengthIsHit(cs, prefixes, tokens[..hit]);
    assert tokens[..hit][..hit] == tokens[..hit];
  }

  lemma FetchKeeps<T>(cs: Pos, s: Server<T>, i: nat)
    requires Inv(cs, s) && i < |s.requests| && s.requests[i].phase.LookedUp?
    ensures Inv(cs, Step(cs, s, Fetch(i)))
  {
    var r, s' := s.requests[i], Step(cs, s, Fetch(i));
    assert RequestOk(cs, s.stack.prefixes, r);
    if r.Hit() > 0 { RetrieveReadsHit(cs, s.stack.prefixes, r.tokens, r.Hit()); }
    AdvanceBalances(cs, s, i, s');
  }

  /** The tokens a store submits: exactly chunk_size for each prefix longer than the hit. */
  lemma SubmittedTokens<T>(cs: Pos, tokens: seq<T>, hit: nat)
    requires hit <= |tokens| && Mod(hit, cs) == 0
    ensures hit <= AlignDown(|tokens|, cs) <= |tokens|
    ensures AlignDown(|tokens|, cs) - hit == Offset(cs, |PrefixesAbove(cs, tokens[..AlignDown(|tokens|, cs)], hit)|)
  {
    var n := AlignDown(|tokens|, cs);
    AlignedIsMultiple(|tokens|, cs);
    MultipleBelow(hit, |tokens|, cs);
    CountPrefixesAbove(cs, tokens[..n], hit);
    DivMod(hit, cs);
    DivMod(n, cs);
    OffsetAdd(cs, Div(hit, cs), Div(n, cs) - Div(hit, cs));
  }

  lemma StoreNewCaches<T>(cs: Pos, stack: Stack<T>, tokens: seq<T>, hit: nat)
    requires Closed(cs, stack.prefixes) && hit <= |tokens| && Mod(hit, cs) == 0 && CachedTo(stack.prefixes, tokens, hit)
    ensures hit <= AlignDown(|tokens|, cs) <= |tokens|
    ensures StoreNewStack(cs, stack, tokens, hit).prefixes
         == stack.prefixes + PrefixesAbove(cs, tokens[..AlignDown(|tokens|, cs)], hit)
    ensures Closed(cs, StoreNewStack(cs, stack, tokens, hit).prefixes)
    ensures CachedTo(StoreNewStack(cs, stack, tokens, hit).prefixes, tokens, AlignDown(|tokens|, cs))
  {
    var n := AlignDown(|tokens|, cs);
    AlignedIsMultiple(|tokens|, cs);
    MultipleBelow(hit, |tokens|, cs);
    var aligned := tokens[..n];
    if n > hit {
      StoreKeepsClosed(cs, stack.prefixes, aligned);
      if hit > 0 { assert aligned[..hit] == tokens[..hit]; }
      StoreAddsAbove(cs, stack.prefixes, aligned, hit);
      InPrefixes(cs, aligned, aligned);
    } else {
      assert PrefixesAbove(cs, aligned, hit) == {};
    }
  }

  lemma RequestsOkGrow<T>(cs: Pos, before: set<seq<T>>, after: set<seq<T>>, requests: seq<Request<T>>)
    requires before <= after && RequestsOk(cs, before, requests)
    ensures RequestsOk(cs, after, requests)
  {
  }

  /** Stored tokens pay for the prefixes they add. */
  lemma StoredPays(cs: Pos, stored: int, before: nat, added: nat, after: nat)
    requires stored >= Offset(cs, before) && after <= before + added
    ensures stored + Offset(cs, added) >= Offset(cs, after)
  {
  }

  lemma StoreNewKeeps<T>(cs: Pos, s: Server<T>, i: nat)
    requires Inv(cs, s) && i < |s.requests| && s.requests[i].phase.Fetched?
    ensures Inv(cs, Step(cs, s, StoreNew(i)))
  {
    hide Balanced, Closed, RequestsOk, StoreNewStack;
    var r := s.requests[i];
    OneOk(cs, s.stack.prefixes, s.requests, i);
    StoreNewBalances(cs, s, i);
    StoreNewCaches(cs, s.stack, r.tokens, r.Hit());
    StoreNewRequestsOk(cs, s, i);
    StoreNewPays(cs, s.stack, r.tokens, r.Hit());
  }

  lemma OneOk<T>(cs: Pos, prefixes: set<seq<T>>, requests: seq<Request<T>>, i: nat)
    requires RequestsOk(cs, prefixes, requests) && i < |requests|
    ensures RequestOk(cs, prefixes, requests[i])
  {
  }

  lemma StoreNewRequestsOk<T>(cs: Pos, s: Server<T>, i: nat)
    requires Closed(cs, s.stack.prefixes) && RequestsOk(cs, s.stack.prefixes, s.requests)
    requires i < |s.requests| && s.requests[i].phase.Fetched?
    ensures RequestsOk(cs, Step(cs, s, StoreNew(i)).stack.prefixes, Step(cs, s, StoreNew(i)).requests)
  {
    hide Closed;
    var r, s' := s.requests[i], Step(cs, s, StoreNew(i));
    assert RequestOk(cs, s.stack.prefixes, r);
    StoreNewCaches(cs, s.stack, r.tokens, r.Hit());
    RequestsOkGrow(cs, s.stack.prefixes, s'.stack.prefixes, s.requests);
    assert RequestOk(cs, s'.stack.prefixes, Request(r.tokens, Stored(r.Hit())));
  }

  lemma StoreNewBalances<T>(cs: Pos, s: Server<T>, i: nat)
    requires Balanced(cs, s) && i < |s.requests| && s.requests[i].phase.Fetched?
    requires RequestOk(cs, s.stack.prefixes, s.requests[i])
    ensures Balanced(cs, Step(cs, s, StoreNew(i)))
  {
    var r, s' := s.requests[i], Step(cs, s, StoreNew(i));
    var r' := Request(r.tokens, Stored(r.Hit()));
    SubmittedTokens(cs, r.tokens, r.Hit());
    assert s'.requests == s.requests[i := r'];
    forall c
      ensures Count(s', c) - Count(s, c) == Share(cs, c, r') - Share(cs, c, r)
    {
      match c {
        case StoredTokens =>
        case Stores =>
        case _ => assert Count(s', c) == Count(s, c);
      }
    }
    AdvanceBalances(cs, s, i, s');
  }

  lemma StoreNewPays<T>(cs: Pos, stack: Stack<T>, tokens: seq<T>, hit: nat)
    requires Closed(cs, stack.prefixes) && hit <= |tokens| && Mod(hit, cs) == 0 && CachedTo(stack.prefixes, tokens, hit)
    requires stack.stats.storedTokens >= Offset(cs, |stack.prefixes|)
    ensures var after := StoreNewStack(cs, stack, tokens, hit);
      after.stats.storedTokens >= Offset(cs, |after.prefixes|)
  {
    SubmittedTokens(cs, tokens, hit);
    StoreNewCaches(cs, stack, tokens, hit);
    var added := PrefixesAbove(cs, tokens[..AlignDown(|tokens|, cs)], hit);
    UnionCard(stack.prefixes, added);
    StoredPays(cs, stack.stats.storedTokens, |stack.prefixes|, |added|, |stack.prefixes + added|);
  }

  lemma AccountKeeps<T>(cs: Pos, s: Server<T>, i: nat)
    requires Inv(cs, s) && i < |s.requests| && s.requests[i].phase.Stored?
    ensures Inv(cs, Step(cs, s, Account(i)))
  {
    var r, s' := s.requests[i], Step(cs, s, Account(i));
    assert RequestOk(cs, s.stack.prefixes, r);
    AccountBalances(cs, s, i);
    forall j | 0 <= j < |s'.requests|
      ensures RequestOk(cs, s'.stack.prefixes, s'.requests[j])
    {
      assert RequestOk(cs, s.stack.prefixes, s.requests[j]);
    }
  }

  lemma AccountBalances<T>(cs: Pos, s: Server<T>, i: nat)
    requires Balanced(cs, s) && i < |s.requests| && s.requests[i].phase.Stored?
    requires s.requests[i].Hit() <= |s.requests[i].tokens|
    ensures Balanced(cs, Step(cs, s, Account(i)))
  {
    var r, s' := s.requests[i], Step(cs, s, Account(i));
    var r' := Request(r.tokens, Completed(r.Hit()));
    assert s'.requests == s.requests[i := r'];
    forall c
      ensures Count(s', c) - Count(s, c) == Share(cs, c, r') - Share(cs, c, r)
    {
    }
    AdvanceBalances(cs, s, i, s');
  }

  lemma StepKeeps<T>(cs: Pos, s: Server<T>, e: Event<T>)
    requires Inv(cs, s)
    ensures Inv(cs, Step(cs, s, e)) && s.stack.prefixes <= Step(cs, s, e).stack.prefixes
  {
    match e
    case Arrive(tokens) => ArriveKeeps(cs, s, tokens);
    case Lookup(i) => if Step(cs, s, e) != s { LookupKeeps(cs, s, i); }
    case Fetch(i) => if Step(cs, s, e) != s { FetchKeeps(cs, s, i); }
    case StoreNew(i) => if Step(cs, s, e) != s { StoreNewKeeps(cs, s, i); }
    case Account(i) => if Step(cs, s, e) != s { AccountKeeps(cs, s, i); }
  }

  lemma {:induction false} RunKeeps<T>(cs: Pos, s: Server<T>, events: seq<Event<T>>)
    requires Inv(cs, s)
    ensures Inv(cs, Run(cs, s, events)) && s.stack.prefixes <= Run(cs, s, events).stack.prefixes
    decreases |events|
  {
    if events != [] {
      var n := |events| - 1;
      RunKeeps(cs, s, events[..n]);
      StepKeeps(cs, Run(cs, s, events[..n]), events[n]);
    }
  }
}
