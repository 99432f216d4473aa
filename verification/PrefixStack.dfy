/** The KV stack with chunk-aligned prefix semantics (tests/fakes.py), and what a history of stores leaves in it. */
module PrefixStack {
  import opened Arith

  /** The counters of KVStackStats that a stack operation touches (src/kvbench/kv/base.py). */
  datatype KVStats = KVStats(lookups: nat, hitTokens: nat, lookupTokens: nat, stores: nat, storedTokens: int,
                             retrieves: nat, retrievedTokens: nat)

  datatype Stack<T(==)> = Stack(prefixes: set<seq<T>>, stats: KVStats)

  function EmptyStack<T(==)>(): Stack<T> { Stack({}, KVStats(0, 0, 0, 0, 0, 0, 0)) }

  // ---------------------------------------------------------------- the longest cached prefix

  /** k is the length of the longest non-empty chunk-aligned prefix of tokens that is cached, or 0. */
  predicate IsHit<T(==)>(cs: Pos, prefixes: set<seq<T>>, tokens: seq<T>, k: nat)
  {
    && k <= |tokens| && Mod(k, cs) == 0
    && (k > 0 ==> tokens[..k] in prefixes)
    && forall j: nat {:trigger tokens[..j]} | k < j <= |tokens| && Mod(j, cs) == 0 :: tokens[..j] !in prefixes
  }

  /** The scan down from length k. */
  function HitFrom<T(==)>(cs: Pos, prefixes: set<seq<T>>, tokens: seq<T>, k: nat): (hit: nat)
    requires k <= |tokens| && Mod(k, cs) == 0
    ensures hit <= k
  {
    if k == 0 then 0 else if tokens[..k] in prefixes then k else HitFrom(cs, prefixes, tokens, k - cs)
  }

  function HitLength<T(==)>(cs: Pos, prefixes: set<seq<T>>, tokens: seq<T>): nat
  {
    AlignedIsMultiple(|tokens|, cs);
    HitFrom(cs, prefixes, tokens, AlignDown(|tokens|, cs))
  }

  lemma {:induction false} HitFromIsHit<T>(cs: Pos, prefixes: set<seq<T>>, tokens: seq<T>, k: nat)
    requires k <= |tokens| && Mod(k, cs) == 0
    requires forall j: nat {:trigger tokens[..j]} | k < j <= |tokens| && Mod(j, cs) == 0 :: tokens[..j] !in prefixes
    ensures IsHit(cs, prefixes, tokens, HitFrom(cs, prefixes, tokens, k))
  {
    if k > 0 && tokens[..k] !in prefixes {
      forall j: nat | k - cs < j <= |tokens| && Mod(j, cs) == 0
        ensures tokens[..j] !in prefixes
      {
        if j < k { NoMultipleBetween(k - cs, j, cs); }
      }
      HitFromIsHit(cs, prefixes, tokens, k - cs);
    }
  }

  lemma HitLengthIsHit<T>(cs: Pos, prefixes: set<seq<T>>, tokens: seq<T>)
    ensures IsHit(cs, prefixes, tokens, HitLength(cs, prefixes, tokens))
  {
    AlignedIsMultiple(|tokens|, cs);
    forall j: nat | j <= |tokens| && Mod(j, cs) == 0
      ensures j <= AlignDown(|tokens|, cs)
    {
      MultipleBelow(j, |tokens|, cs);
    }
    HitFromIsHit(cs, prefixes, tokens, AlignDown(|tokens|, cs));
  }

  lemma HitUnique<T>(cs: Pos, prefixes: set<seq<T>>, tokens: seq<T>, k: nat, j: nat)
    requires IsHit(cs, prefixes, tokens, k) && IsHit(cs, prefixes, tokens, j)
    ensures k == j
  {
  }

  lemma AlignedIsMultiple(n: nat, d: Pos)
    ensures Mod(AlignDown(n, d), d) == 0 && AlignDown(n, d) <= n < AlignDown(n, d) + d
    ensures Div(AlignDown(n, d), d) == Div(n, d)
  {
    DivMod(n, d);
    OffsetDivMod(d, Div(n, d), 0);
  }

  lemma {:induction false} NoMultipleBetween(k: nat, j: nat, d: Pos)
    requires Mod(k, d) == 0 && k < j < k + d
    ensures Mod(j, d) != 0
  {
    if k >= d { NoMultipleBetween(k - d, j - d, d); }
  }

  // ---------------------------------------------------------------- what a store adds

  /** Every non-empty chunk-aligned prefix of tokens longer than lo. */
  function PrefixesAbove<T(==)>(cs: Pos, tokens: seq<T>, lo: nat): set<seq<T>>
  {
    set k: nat | lo < k <= |tokens| && Mod(k, cs) == 0 :: tokens[..k]
  }

  function PrefixesOf<T(==)>(cs: Pos, tokens: seq<T>): set<seq<T>> { PrefixesAbove(cs, tokens, 0) }

  lemma InPrefixes<T>(cs: Pos, tokens: seq<T>, p: seq<T>)
    ensures p in PrefixesOf(cs, tokens) <==> (0 < |p| && p <= tokens && Mod(|p|, cs) == 0)
  {
    if 0 < |p| && p <= tokens && Mod(|p|, cs) == 0 { assert p == tokens[..|p|]; }
  }

  lemma {:induction false} CountPrefixesAbove<T>(cs: Pos, tokens: seq<T>, lo: nat)
    requires Mod(lo, cs) == 0 && lo <= |tokens|
    ensures |PrefixesAbove(cs, tokens, lo)| == Div(|tokens|, cs) - Div(lo, cs)
    decreases |tokens| - lo
  {
    if lo + cs <= |tokens| {
      AddMultiple(lo, cs, cs);
      assert Div(cs, cs) == 1 && Mod(cs, cs) == 0;
      var rest := PrefixesAbove(cs, tokens, lo + cs);
      CountPrefixesAbove(cs, tokens, lo + cs);
      NextPrefix(cs, tokens, lo);
      assert tokens[..lo + cs] !in rest;
    } else {
      AddMultiple(lo, |tokens| - lo, cs);
      NoPrefixAbove(cs, tokens, lo);
    }
  }

  lemma NoPrefixAbove<T>(cs: Pos, tokens: seq<T>, lo: nat)
    requires Mod(lo, cs) == 0 && lo <= |tokens| < lo + cs
    ensures PrefixesAbove(cs, tokens, lo) == {}
  {
    forall k: nat | lo < k <= |tokens|
      ensures Mod(k, cs) != 0
    {
      NoMultipleBetween(lo, k, cs);
    }
  }

  lemma NextPrefix<T>(cs: Pos, tokens: seq<T>, lo: nat)
    requires Mod(lo, cs) == 0 && lo + cs <= |tokens| && Mod(lo + cs, cs) == 0
    ensures PrefixesAbove(cs, tokens, lo) == PrefixesAbove(cs, tokens, lo + cs) + {tokens[..lo + cs]}
  {
    forall k: nat | lo < k < lo + cs
      ensures Mod(k, cs) != 0
    {
      NoMultipleBetween(lo, k, cs);
    }
  }

  // ---------------------------------------------------------------- closure under truncation

  /** Every cached prefix is a non-empty whole number of chunks, and dropping its last chunk leaves a cached
      prefix or nothing. */
  predicate Closed<T(==)>(cs: Pos, prefixes: set<seq<T>>)
  {
    forall p {:trigger ClosedAt(cs, prefixes, p)} | p in prefixes :: ClosedAt(cs, prefixes, p)
  }

  predicate ClosedAt<T(==)>(cs: Pos, prefixes: set<seq<T>>, p: seq<T>)
  {
    |p| >= cs && Mod(|p|, cs) == 0 && (|p| > cs ==> p[..|p| - cs] in prefixes)
  }

  lemma PrefixesOfClosed<T>(cs: Pos, tokens: seq<T>)
    ensures Closed(cs, PrefixesOf(cs, tokens))
  {
    var s := PrefixesOf(cs, tokens);
    forall p | p in s
      ensures ClosedAt(cs, s, p)
    {
      InPrefixes(cs, tokens, p);
      if |p| > cs { InPrefixes(cs, tokens, p[..|p| - cs]); }
    }
  }

  lemma StoreKeepsClosed<T>(cs: Pos, prefixes: set<seq<T>>, tokens: seq<T>)
    requires Closed(cs, prefixes)
    ensures Closed(cs, prefixes + PrefixesOf(cs, tokens))
  {
    PrefixesOfClosed(cs, tokens);
    forall p | p in prefixes + PrefixesOf(cs, tokens)
      ensures ClosedAt(cs, prefixes + PrefixesOf(cs, tokens), p)
    {
      assert p in prefixes ==> ClosedAt(cs, prefixes, p);
      assert p in PrefixesOf(cs, tokens) ==> ClosedAt(cs, PrefixesOf(cs, tokens), p);
    }
  }

  /** In a closed set every shorter aligned prefix of a cached one is cached. */
  lemma {:induction false} TruncationCached<T>(cs: Pos, prefixes: set<seq<T>>, tokens: seq<T>, k: nat, j: nat)
    requires Closed(cs, prefixes) && k <= |tokens| && tokens[..k] in prefixes
    requires 0 < j <= k && Mod(j, cs) == 0
    ensures tokens[..j] in prefixes
    decreases k
  {
    assert ClosedAt(cs, prefixes, tokens[..k]);
    if j < k {
      if k - cs < j { NoMultipleBetween(k - cs, j, cs); }
      assert tokens[..k][..k - cs] == tokens[..k - cs];
      TruncationCached(cs, prefixes, tokens, k - cs, j);
    }
  }

  /** With hit tokens of an aligned sequence already cached, storing it caches exactly the longer prefixes. */
  lemma StoreAddsAbove<T>(cs: Pos, prefixes: set<seq<T>>, tokens: seq<T>, hit: nat)
    requires Closed(cs, prefixes) && hit <= |tokens| && Mod(hit, cs) == 0
    requires hit > 0 ==> tokens[..hit] in prefixes
    ensures prefixes + PrefixesOf(cs, tokens) == prefixes + PrefixesAbove(cs, tokens, hit)
  {
    forall k: nat | 0 < k <= |tokens| && Mod(k, cs) == 0
      ensures k > hit || tokens[..k] in prefixes
    {
      if k <= hit { TruncationCached(cs, prefixes, tokens, hit, k); }
    }
  }

  // ---------------------------------------------------------------- the stack's operations as functions

  function LookupStep<T(==)>(cs: Pos, s: Stack<T>, tokens: seq<T>): Stack<T>
  {
    s.(stats := s.stats.(lookups := s.stats.lookups + 1, lookupTokens := s.stats.lookupTokens + |tokens|,
                         hitTokens := s.stats.hitTokens + HitLength(cs, s.prefixes, tokens)))
  }

  function RetrieveStep<T(==)>(cs: Pos, s: Stack<T>, tokens: seq<T>): Stack<T>
  {
    s.(stats := s.stats.(retrieves := s.stats.retrieves + 1,
                         retrievedTokens := s.stats.retrievedTokens + HitLength(cs, s.prefixes, tokens)))
  }

  function StoreStep<T(==)>(cs: Pos, s: Stack<T>, tokens: seq<T>, skipLeading: int): Stack<T>
  {
    Stack(s.prefixes + PrefixesOf(cs, tokens),
          s.stats.(stores := s.stats.stores + 1, storedTokens := s.stats.storedTokens + |tokens| - skipLeading))
  }

  /** In-memory stack: a set of cached prefixes and the counters, updated in place. */
  class FakeKVStack<T(==)> {
    const chunkSize: Pos
    var prefixes: set<seq<T>>
    var stats: KVStats

    constructor (chunkSize: Pos)
      ensures this.chunkSize == chunkSize && State() == EmptyStack()
    {
      this.chunkSize := chunkSize;
      prefixes := {};
      stats := KVStats(0, 0, 0, 0, 0, 0, 0);
    }

    ghost function State(): Stack<T>
      reads this
    {
      Stack(prefixes, stats)
    }

    /** Scans down from the whole aligned length to the first cached prefix. */
    method HitLengthOf(tokens: seq<T>) returns (hit: nat)
      ensures hit == HitLength(chunkSize, prefixes, tokens)
      ensures IsHit(chunkSize, prefixes, tokens, hit)
    {
      HitLengthIsHit(chunkSize, prefixes, tokens);
      AlignedIsMultiple(|tokens|, chunkSize);
      var k := AlignDown(|tokens|, chunkSize);
      while k > 0
        invariant 0 <= k <= |tokens| && Mod(k, chunkSize) == 0
        invariant HitLength(chunkSize, prefixes, tokens) == HitFrom(chunkSize, prefixes, tokens, k)
      {
        if tokens[..k] in prefixes { return k; }
        k := k - chunkSize;
      }
      return 0;
    }

    method Lookup(tokens: seq<T>) returns (hit: nat)
      modifies this
      ensures State() == LookupStep(chunkSize, old(State()), tokens)
      ensures hit == HitLength(chunkSize, prefixes, tokens)
    {
      hit := HitLengthOf(tokens);
      stats := stats.(lookups := stats.lookups + 1);
      stats := stats.(lookupTokens := stats.lookupTokens + |tokens|);
      stats := stats.(hitTokens := stats.hitTokens + hit);
    }

    method Store(tokens: seq<T>, skipLeading: int)
      modifies this
      ensures State() == StoreStep(chunkSize, old(State()), tokens, skipLeading)
    {
      var k: int := chunkSize;
      while k <= |tokens|
        invariant k >= chunkSize && Mod(k, chunkSize) == 0
        invariant stats == old(stats)
        invariant prefixes
          == old(prefixes) + set j: nat | 0 < j < k && j <= |tokens| && Mod(j, chunkSize) == 0 :: tokens[..j]
        decreases |tokens| - k
      {
        prefixes := prefixes + {tokens[..k]};
        forall j: nat | k < j < k + chunkSize
          ensures Mod(j, chunkSize) != 0
        {
          NoMultipleBetween(k, j, chunkSize);
        }
        k := k + chunkSize;
      }
      stats := stats.(stores := stats.stores + 1);
      stats := stats.(storedTokens := stats.storedTokens + |tokens| - skipLeading);
    }

    method Retrieve(tokens: seq<T>) returns (hit: nat)
      modifies this
      ensures State() == RetrieveStep(chunkSize, old(State()), tokens)
      ensures hit == HitLength(chunkSize, prefixes, tokens)
    {
      hit := HitLengthOf(tokens);
      stats := stats.(retrieves := stats.retrieves + 1);
      stats := stats.(retrievedTokens := stats.retrievedTokens + hit);
    }
  }
}
