/** The combined server's request handler, running one request at a time on a stack it owns
(src/kvbench/servers/combined.py; the prefill server of src/kvbench/servers/prefill.py runs the same protocol).
Latencies are spent asleep and leave no trace in the state. */
module Servers {
  import opened Wrappers
  import opened Arith
  import opened OpenAiCompat
  import opened PrefixStack
  import opened Prefill
  import opened PrefillRuns
  import opened Tokens

  class CombinedServer {
    const kv: FakeKVStack<Token>
    const processor: TokenProcessor
    var requestsTotal: nat
    var requestsSuccess: nat
    var promptTokens: nat
    var completionTokens: nat
    var cacheHits: nat
    var cacheMisses: nat
    /** Every request served so far. */
    ghost var requests: seq<Request<Token>>

    constructor (kv: FakeKVStack<Token>, sha: Sha)
      ensures this.kv == kv && processor.sha == sha && Valid() && fresh(processor)
      ensures View() == Server(kv.State(), 0, 0, 0, []) && requestsTotal == requestsSuccess == completionTokens == 0
    {
      this.kv := kv;
      processor := new TokenProcessor(kv.chunkSize, sha);
      requestsTotal, requestsSuccess, promptTokens, completionTokens := 0, 0, 0, 0;
      cacheHits, cacheMisses, requests := 0, 0, [];
    }

    predicate Valid() { processor.chunkSize == kv.chunkSize }

    /** The server and its stack as a state of the protocol. */
    ghost function View(): Server<Token>
      reads this, kv
    {
      Server(kv.State(), promptTokens, cacheHits, cacheMisses, requests)
    }

    method ProcessPrefill(prompt: seq<Byte>) returns (numTokens: nat, hits: nat, misses: nat)
      requires Valid()
      modifies kv
      ensures var tokens := Tokenize(processor.sha, Granule(4.0), prompt);
        var hit := HitLength(kv.chunkSize, old(kv.prefixes), tokens);
        && kv.State() == PrefillStack(kv.chunkSize, old(kv.State()), tokens)
        && numTokens == |tokens| && hits == Div(hit, kv.chunkSize) && misses == CeilDiv(numTokens - hit, kv.chunkSize)
        && hits == hit / kv.chunkSize && misses == (numTokens - hit + kv.chunkSize - 1) / kv.chunkSize
    {
      var tokens := processor.SimulateTokenize(prompt, 4.0);
      numTokens := |tokens|;
      HitLengthIsHit(kv.chunkSize, kv.prefixes, tokens);
      var hitTokens := kv.Lookup(tokens);
      if hitTokens > 0 {
        var _ := kv.Retrieve(tokens[..hitTokens]);
      }
      var missTokens := numTokens - hitTokens;
      if missTokens > 0 {
        var storeEnd := AlignDown(numTokens, kv.chunkSize);
        if storeEnd > hitTokens {
          kv.Store(tokens[..storeEnd], hitTokens);
        }
      }
      DivModAgree(hitTokens, kv.chunkSize);
      DivModAgree(missTokens + kv.chunkSize - 1, kv.chunkSize);
      hits := Div(hitTokens, kv.chunkSize);
      misses := CeilDiv(missTokens, kv.chunkSize);
    }

    /** A whole request is one sequential service of the protocol: its prefill, then max_tokens decode steps. */
    method ChatCompletions(prompt: seq<Byte>, maxTokens: Option<int>)
      requires Valid()
      modifies this, kv
      ensures View() == Serve(kv.chunkSize, old(View()), Tokenize(processor.sha, Granule(4.0), prompt))
      ensures requestsTotal == old(requestsTotal) + 1 && requestsSuccess == old(requestsSuccess) + 1
      ensures maxTokens.None? || maxTokens.value == 0 ==> completionTokens == old(completionTokens) + 100
      ensures maxTokens.Some? && maxTokens.value > 0 ==> completionTokens == old(completionTokens) + maxTokens.value
      ensures maxTokens.Some? && maxTokens.value < 0 ==> completionTokens == old(completionTokens)
    {
      requestsTotal := requestsTotal + 1;
      PrefillPhase(prompt);
      var max := TokensToGenerate(maxTokens);
      var generated := 0;
      while generated < max
        invariant 0 <= generated <= max
      {
        generated := generated + 1;
      }
      completionTokens := completionTokens + generated;
      requestsSuccess := requestsSuccess + 1;
    }

    /** The prefill phase and its counters. */
    method PrefillPhase(prompt: seq<Byte>)
      requires Valid()
      modifies this`promptTokens, this`cacheHits, this`cacheMisses, this`requests, kv
      ensures View() == Serve(kv.chunkSize, old(View()), Tokenize(processor.sha, Granule(4.0), prompt))
    {
      ghost var tokens := Tokenize(processor.sha, Granule(4.0), prompt);
      ServeIs(kv.chunkSize, View(), tokens);
      requests := requests + [Request(tokens, Completed(HitLength(kv.chunkSize, kv.prefixes, tokens)))];
      var n, hits, misses := ProcessPrefill(prompt);
      promptTokens := promptTokens + n;
      cacheHits := cacheHits + hits;
      cacheMisses := cacheMisses + misses;
    }
  }

  /** What one undisturbed request does to the stack. */
  function PrefillStack<T(==)>(cs: Pos, stack: Stack<T>, tokens: seq<T>): Stack<T>
  {
    HitLengthIsHit(cs, stack.prefixes, tokens);
    var hit := HitLength(cs, stack.prefixes, tokens);
    StoreNewStack(cs, FetchStack(cs, LookupStep(cs, stack, tokens), tokens, hit), tokens, hit)
  }

  lemma ServeIs<T>(cs: Pos, s: Server<T>, tokens: seq<T>)
    ensures var hit := HitLength(cs, s.stack.prefixes, tokens);
      && hit <= |tokens|
      && Serve(cs, s, tokens)
         == Server(PrefillStack(cs, s.stack, tokens), s.promptTokens + |tokens|, s.cacheHits + Div(hit, cs),
                   s.cacheMisses + CeilDiv(|tokens| - hit, cs), s.requests + [Request(tokens, Completed(hit))])
  {
    HitLengthIsHit(cs, s.stack.prefixes, tokens);
    var i, hit := |s.requests|, HitLength(cs, s.stack.prefixes, tokens);
    var a := Step(cs, s, Arrive(tokens));
    var b := Step(cs, a, Lookup(i));
    assert b.requests == s.requests + [Request(tokens, LookedUp(hit))];
    var c := Step(cs, b, Fetch(i));
    assert c.requests == s.requests + [Request(tokens, Fetched(hit))];
    var d := Step(cs, c, StoreNew(i));
    assert d.requests == s.requests + [Request(tokens, Stored(hit))];
    var e := Step(cs, d, Account(i));
    assert e.requests == s.requests + [Request(tokens, Completed(hit))];
  }
}
