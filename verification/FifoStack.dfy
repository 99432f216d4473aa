/** The FIFO-evicting stack that warmup runs against (tests/unit/servers/test_warmup.py). */
module FifoStack {
  import opened Arith
  import opened Sums

  // ---------------------------------------------------------------- what a history of stores leaves

  lemma SumHead<X>(w: X -> int, xs: seq<X>)
    requires xs != []
    ensures Sum(w, xs) == w(xs[0]) + Sum(w, xs[1..])
  {
    assert xs == [xs[0]] + xs[1..];
    SumConcat(w, [xs[0]], xs[1..]);
    assert [xs[0]][..0] == [];
  }

  ghost predicate NonNegative<X(!new)>(w: X -> int) { forall x :: w(x) >= 0 }

  lemma {:induction false} SuffixSum<X(!new)>(w: X -> int, xs: seq<X>, i: nat, j: nat)
    requires NonNegative(w) && i <= j <= |xs|
    ensures Sum(w, xs[i..]) >= Sum(w, xs[j..])
    decreases j - i
  {
    if i < j {
      SumHead(w, xs[i..]);
      assert xs[i..][1..] == xs[i + 1..];
      SuffixSum(w, xs, i + 1, j);
    }
  }

  /** xs[k..] is the longest suffix of xs whose total weight fits the capacity. */
  ghost predicate IsLongestFit<X>(w: X -> int, capacity: nat, xs: seq<X>, k: nat)
  {
    && k <= |xs| && Sum(w, xs[k..]) <= capacity
    && forall j: nat {:trigger xs[j..]} | j < k :: Sum(w, xs[j..]) > capacity
  }

  /** How many of the oldest have been evicted, after a history of stores. */
  ghost function Evicted<X>(w: X -> int, capacity: nat, xs: seq<X>): (k: nat)
    ensures IsLongestFit(w, capacity, xs, k)
  {
    EvictedFrom(w, capacity, xs, 0)
  }

  ghost function EvictedFrom<X>(w: X -> int, capacity: nat, xs: seq<X>, i: nat): (k: nat)
    requires i <= |xs| && forall j: nat {:trigger xs[j..]} | j < i :: Sum(w, xs[j..]) > capacity
    ensures IsLongestFit(w, capacity, xs, k)
    decreases |xs| - i
  {
    if Sum(w, xs[i..]) <= capacity then i else EvictedFrom(w, capacity, xs, i + 1)
  }

  lemma LongestFitUnique<X>(w: X -> int, capacity: nat, xs: seq<X>, k: nat, j: nat)
    requires IsLongestFit(w, capacity, xs, k) && IsLongestFit(w, capacity, xs, j)
    ensures k == j
  {
  }

  /** A stored sequence is still cached exactly when everything stored since, itself included, fits. */
  lemma RetainedIff<X(!new)>(w: X -> int, capacity: nat, xs: seq<X>, p: nat)
    requires NonNegative(w) && p < |xs|
    ensures p >= Evicted(w, capacity, xs) <==> Sum(w, xs[p..]) <= capacity
  {
    var k := Evicted(w, capacity, xs);
    if p >= k { SuffixSum(w, xs, k, p); } else { assert Sum(w, xs[p..]) > capacity; }
  }

  /** Storing one more and evicting from what was left keeps the longest suffix of the whole history. */
  lemma StoreThenEvict<X(!new)>(w: X -> int, capacity: nat, xs: seq<X>, x: X, d: nat)
    requires NonNegative(w) && IsLongestFit(w, capacity, xs[Evicted(w, capacity, xs)..] + [x], d)
    ensures (xs + [x])[Evicted(w, capacity, xs + [x])..] == (xs[Evicted(w, capacity, xs)..] + [x])[d..]
  {
    var ys, k := xs + [x], Evicted(w, capacity, xs);
    var cache := xs[k..] + [x];
    assert ys[k + d..] == cache[d..];
    forall j: nat {:trigger ys[j..]} | j < k + d
      ensures Sum(w, ys[j..]) > capacity
    {
      if j < k {
        assert ys[j..] == xs[j..] + [x];
        SumAppend(w, xs[j..], x);
      } else {
        assert ys[j..] == cache[j - k..];
      }
    }
    LongestFitUnique(w, capacity, ys, k + d, Evicted(w, capacity, ys));
  }

  // ---------------------------------------------------------------- the stack

  /** Sequences weigh bytes_per_token for each token. */
  function Weight<T>(bytesPerToken: nat): seq<T> -> int { (s: seq<T>) => Offset(bytesPerToken, |s|) }

  class FifoKVStack<T(==,!new)> {
    const capacityBytes: nat
    const bytesPerToken: nat
    var sequences: seq<seq<T>>
    var storedBytes: int
    /** Every sequence ever stored, in call order. */
    ghost var history: seq<seq<T>>

    constructor (capacityBytes: nat, bytesPerToken: nat)
      ensures this.capacityBytes == capacityBytes && this.bytesPerToken == bytesPerToken
      ensures Valid() && history == []
    {
      this.capacityBytes := capacityBytes;
      this.bytesPerToken := bytesPerToken;
      sequences, storedBytes, history := [], 0, [];
    }

    /** The cache is the longest suffix of the store history whose bytes fit the capacity. */
    ghost predicate Valid()
      reads this
    {
      && sequences == history[Evicted(Weight(bytesPerToken), capacityBytes, history)..]
      && storedBytes == Sum(Weight(bytesPerToken), sequences)
    }

    method Store(tokens: seq<T>)
      requires Valid()
      modifies this
      ensures Valid() && history == old(history) + [tokens]
    {
      ghost var w: seq<T> -> int := Weight(bytesPerToken);
      SumAppend(w, sequences, tokens);
      sequences := sequences + [tokens];
      OffsetAgrees(bytesPerToken, |tokens|);
      storedBytes := storedBytes + |tokens| * bytesPerToken;
      ghost var d := EvictFront();
      StoreThenEvict(w, capacityBytes, history, tokens, d);
      history := history + [tokens];
    }

    /** The eviction loop of a store. */
    method EvictFront() returns (ghost d: nat)
      requires storedBytes == Sum(Weight(bytesPerToken), sequences)
      modifies this`sequences, this`storedBytes
      ensures IsLongestFit(Weight(bytesPerToken), capacityBytes, old(sequences), d)
      ensures sequences == old(sequences)[d..] && storedBytes == Sum(Weight(bytesPerToken), sequences)
    {
      ghost var w: seq<T> -> int := Weight(bytesPerToken);
      ghost var all := sequences;
      d := 0;
      while storedBytes > capacityBytes
        invariant d <= |all| && sequences == all[d..] && storedBytes == Sum(w, sequences)
        invariant forall j: nat {:trigger all[j..]} | j < d :: Sum(w, all[j..]) > capacityBytes
        decreases |sequences|
      {
        SumHead(w, sequences);
        var evicted := sequences[0];
        OffsetAgrees(bytesPerToken, |evicted|);
        sequences := sequences[1..];
        storedBytes := storedBytes - |evicted| * bytesPerToken;
        d := d + 1;
      }
    }

    /** Exact match against every cached sequence. */
    method Lookup(tokens: seq<T>) returns (hit: nat)
      ensures hit == if tokens in sequences then |tokens| else 0
    {
      for i := 0 to |sequences|
        invariant tokens !in sequences[..i]
      {
        if tokens == sequences[i] { return |tokens|; }
      }
      return 0;
    }
  }
}
