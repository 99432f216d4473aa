/** The two prefix searches in every state the servers can reach
(src/kvbench/core/tokens.py, src/kvbench/servers/combined.py). */
module ServerSearch {
  import opened Arith
  import opened Chain
  import opened Prefill
  import opened PrefillRuns
  import opened PrefixSearch
  import opened PrefixStack
  import opened Tokens

  /** The sequence a step stores, if it stores one. */
  function StoredBy<T(==)>(cs: Pos, s: Server<T>, e: Event<T>): seq<seq<T>>
  {
    if !e.StoreNew? || e.i >= |s.requests| || !s.requests[e.i].phase.Fetched? then []
    else
      var r := s.requests[e.i];
      var storeEnd := AlignDown(|r.tokens|, cs);
      if r.Hit() <= |r.tokens| && storeEnd > r.Hit() then [r.tokens[..storeEnd]] else []
  }

  /** The stores of a run, in order. */
  function StoresOf<T(==)>(cs: Pos, events: seq<Event<T>>): seq<seq<T>>
  {
    if events == [] then []
    else
      var n := |events| - 1;
      StoresOf(cs, events[..n]) + StoredBy(cs, Reached(cs, events[..n]), events[n])
  }

  lemma StepStores<T>(cs: Pos, s: Server<T>, e: Event<T>, history: seq<seq<T>>)
    requires s.stack.prefixes == PrefixesAfter(cs, history)
    ensures Step(cs, s, e).stack.prefixes == PrefixesAfter(cs, history + StoredBy(cs, s, e))
  {
    var stored := StoredBy(cs, s, e);
    if stored == [] {
      assert history + stored == history;
    } else {
      assert (history + stored)[..|history|] == history;
    }
  }

  /** The prefixes cached in a reachable state are those of the stores made to get there. */
  lemma {:induction false} CachedByStores<T>(cs: Pos, events: seq<Event<T>>)
    ensures Reached(cs, events).stack.prefixes == PrefixesAfter(cs, StoresOf(cs, events))
  {
    if events != [] {
      var n := |events| - 1;
      CachedByStores(cs, events[..n]);
      StepStores(cs, Reached(cs, events[..n]), events[n], StoresOf(cs, events[..n]));
    }
  }

  /** Every request keeps its tokens. */
  lemma StepKeepsTokens<T>(cs: Pos, s: Server<T>, e: Event<T>, i: nat)
    requires i < |s.requests|
    ensures i < |Step(cs, s, e).requests| && Step(cs, s, e).requests[i].tokens == s.requests[i].tokens
  {
  }

  predicate AllTopByteZero(requests: seq<Request<Token>>)
  {
    forall i {:trigger requests[i]} | 0 <= i < |requests| :: TopByteZero(requests[i].tokens)
  }

  lemma {:induction false} StoresTopByteZero(cs: Pos, events: seq<Event<Token>>)
    requires AllTopByteZero(Reached(cs, events).requests)
    ensures forall s | s in StoresOf(cs, events) :: TopByteZero(s)
  {
    if events != [] {
      var n := |events| - 1;
      var m := Reached(cs, events[..n]);
      forall i {:trigger m.requests[i]} | 0 <= i < |m.requests|
        ensures TopByteZero(m.requests[i].tokens)
      {
        StepKeepsTokens(cs, m, events[n], i);
      }
      StoresTopByteZero(cs, events[..n]);
    }
  }

  /** In every state a server reaches, over any interleaving of requests whose tokens have zero top bytes, the upward
      scan over the chunk hashes of what was stored finds exactly what the stack's lookup does. */
  lemma ServerSearchesAgree(sha: Sha, cs: Pos, events: seq<Event<Token>>, tokens: seq<Token>, matched: nat,
                            hashes: seq<string>)
    requires TopByteZero(tokens) && AllTopByteZero(Reached(cs, events).requests)
    requires CollisionFree(sha, PreimagesOf(AllLinks(sha, cs, StoresOf(cs, events), tokens)))
    requires IsPrefixMatch(Hasher(sha), cs, tokens, HashesAfter(Hasher(sha), cs, StoresOf(cs, events)), matched, hashes)
    ensures matched == HitLength(cs, Reached(cs, events).stack.prefixes, tokens)
  {
    CachedByStores(cs, events);
    StoresTopByteZero(cs, events);
    SearchesAgree(sha, cs, StoresOf(cs, events), tokens, matched, hashes);
  }
}
