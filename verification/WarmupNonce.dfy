/** The counter that makes warmup sequences unique (src/kvbench/servers/warmup.py). */
module WarmupNonce {
  import opened Arith
  import opened PrefixSearch
  import opened PrefixStack
  import opened Sums

  /** `(nonce >> (i * 8)) & 0xFF`. */
  function NonceByte(n: nat, i: nat): nat { if i == 0 then n % 256 else NonceByte(n / 256, i - 1) }

  function Pow256(k: nat): Pos { if k == 0 then 1 else 256 * Pow256(k - 1) }

  /** The first eight tokens carry the counter. */
  predicate Encodes(tokens: seq<int>, n: nat)
  {
    |tokens| >= 8 && forall i: nat {:trigger tokens[i]} | i < 8 :: tokens[i] == NonceByte(n, i)
  }

  /** t is the counter divided by 256^i, modulo 256. */
  lemma {:induction false} NonceByteIs(n: nat, i: nat)
    ensures NonceByte(n, i) == n / Pow256(i) % 256
  {
    if i > 0 {
      NonceByteIs(n / 256, i - 1);
      DivideTwice(n, Pow256(i - 1));
    }
  }

  lemma DivideTwice(n: nat, p: Pos)
    ensures n / 256 / p == n / (256 * p)
  {
    var q := n / 256 / p;
    assert n / 256 == q * p + n / 256 % p;
    assert q * (256 * p) == 256 * (q * p);
    QuotientUnique(n, 256 * p, q);
  }

  /** The number whose base 256 digits these are, the lowest first. */
  function Base256(digits: seq<int>): int { if digits == [] then 0 else digits[0] + 256 * Base256(digits[1..]) }

  /** The first eight tokens are the bytes of the counter, the lowest first. */
  predicate SpellsCounter(tokens: seq<int>, n: nat)
  {
    && |tokens| >= 8 && (forall i {:trigger tokens[i]} | 0 <= i < 8 :: 0 <= tokens[i] < 256)
    && Base256(tokens[..8]) == n % 0x1_0000_0000_0000_0000
  }

  lemma {:induction false} DigitsAre(digits: seq<int>, n: nat)
    requires forall i: nat {:trigger digits[i]} | i < |digits| :: digits[i] == NonceByte(n, i)
    ensures Base256(digits) == Low(n, |digits|)
  {
    if digits != [] {
      assert digits[0] == NonceByte(n, 0);
      forall i: nat {:trigger digits[1..][i]} | i < |digits| - 1
        ensures digits[1..][i] == NonceByte(n / 256, i)
      {
        assert digits[i + 1] == NonceByte(n, i + 1);
      }
      DigitsAre(digits[1..], n / 256);
    }
  }

  lemma EncodesSpells(tokens: seq<int>, n: nat)
    requires Encodes(tokens, n)
    ensures SpellsCounter(tokens, n)
  {
    LowIs(n, 8);
    Pow256Of8();
    DigitsAre(tokens[..8], n);
    forall i {:trigger tokens[i]} | 0 <= i < 8
      ensures 0 <= tokens[i] < 256
    {
      NonceByteIs(n, i);
    }
  }

  lemma Pow256Of8()
    ensures Pow256(8) == 0x1_0000_0000_0000_0000
  {
    assert Pow256(4) == 0x1_0000_0000;
  }

  /** `tokens[i] = (nonce >> (i * 8)) & 0xFF` for the first eight positions. */
  method Stamp(tokens: array<int>, nonce: nat)
    requires tokens.Length >= 8
    modifies tokens
    ensures Encodes(tokens[..], nonce) && tokens[8..] == old(tokens[8..])
    ensures SpellsCounter(tokens[..], nonce)
  {
    for i := 0 to 8
      invariant forall k: nat {:trigger tokens[k]} | k < i :: tokens[k] == NonceByte(nonce, k)
      invariant tokens[8..] == old(tokens[8..])
    {
      tokens[i] := NonceByte(nonce, i);
    }
    EncodesSpells(tokens[..], nonce);
  }

  ghost predicate SameBytes(n: nat, m: nat, k: nat)
  {
    forall i: nat {:trigger NonceByte(n, i)} | i < k :: NonceByte(n, i) == NonceByte(m, i)
  }

  /** n modulo 256^k, byte by byte. */
  function Low(n: nat, k: nat): nat { if k == 0 then 0 else n % 256 + 256 * Low(n / 256, k - 1) }

  lemma {:induction false} LowIs(n: nat, k: nat)
    ensures Low(n, k) == n % Pow256(k)
  {
    if k > 0 {
      LowIs(n / 256, k - 1);
      ModStep(n, Pow256(k - 1));
    }
  }

  lemma ModStep(n: nat, p: Pos)
    ensures n % (256 * p) == n % 256 + 256 * ((n / 256) % p)
  {
    var q, r := (n / 256) / p, (n / 256) % p;
    assert n / 256 == q * p + r;
    assert n == 256 * (q * p + r) + n % 256;
    assert 256 * (q * p) == q * (256 * p);
    QuotientUnique(n, 256 * p, q);
  }

  lemma AddPeriod(n: nat, p: Pos)
    ensures (n + p) % p == n % p
  {
    var q := n / p;
    assert n == q * p + n % p && (q + 1) * p == q * p + p;
    QuotientUnique(n + p, p, q + 1);
  }

  lemma {:induction false} SameBytesLow(n: nat, m: nat, k: nat)
    ensures SameBytes(n, m, k) <==> Low(n, k) == Low(m, k)
  {
    if k > 0 {
      SameBytesLow(n / 256, m / 256, k - 1);
      SameBytesStep(n, m, k);
    }
  }

  lemma SameBytesStep(n: nat, m: nat, k: nat)
    requires k > 0
    ensures SameBytes(n, m, k) <==> (n % 256 == m % 256 && SameBytes(n / 256, m / 256, k - 1))
  {
    if SameBytes(n, m, k) {
      assert NonceByte(n, 0) == NonceByte(m, 0);
      forall i: nat {:trigger NonceByte(n / 256, i)} | i < k - 1
        ensures NonceByte(n / 256, i) == NonceByte(m / 256, i)
      {
        assert NonceByte(n, i + 1) == NonceByte(m, i + 1);
      }
    }
    if n % 256 == m % 256 && SameBytes(n / 256, m / 256, k - 1) {
      forall i: nat {:trigger NonceByte(n, i)} | i < k
        ensures NonceByte(n, i) == NonceByte(m, i)
      {
        if i > 0 { assert NonceByte(n / 256, i - 1) == NonceByte(m / 256, i - 1); }
      }
    }
  }

  /** Two counters agree on their low k bytes exactly when they are congruent modulo 256^k. */
  lemma SameBytesIff(n: nat, m: nat, k: nat)
    ensures SameBytes(n, m, k) <==> n % Pow256(k) == m % Pow256(k)
  {
    SameBytesLow(n, m, k);
    LowIs(n, k);
    LowIs(m, k);
  }

  /** Sequences whose counters differ below 256^min(chunk_size, 8) differ inside their first chunk; with at
      most 8 tokens a chunk, they do so only then. */
  lemma FirstChunks(cs: Pos, a: seq<int>, n: nat, b: seq<int>, m: nat)
    requires Encodes(a, n) && Encodes(b, m) && cs <= |a| && cs <= |b|
    ensures a[..cs] == b[..cs] ==> n % Pow256(Min(cs, 8)) == m % Pow256(Min(cs, 8))
    ensures cs <= 8 ==> (a[..cs] == b[..cs] <==> n % Pow256(cs) == m % Pow256(cs))
  {
    var k := Min(cs, 8);
    SameBytesIff(n, m, k);
    if a[..cs] == b[..cs] {
      forall i: nat {:trigger NonceByte(n, i)} | i < k
        ensures NonceByte(n, i) == NonceByte(m, i)
      {
        assert a[..cs][i] == b[..cs][i];
      }
    }
    if cs <= 8 && SameBytes(n, m, cs) {
      assert forall i: nat {:trigger a[i]} | i < cs :: a[i] == b[i];
    }
  }

  // ---------------------------------------------------------------- no deduplication

  /** A history of generated sequences: whole chunks each, the j-th carrying counter j + 1. */
  ghost predicate Generated(cs: Pos, history: seq<seq<int>>)
  {
    forall j: nat {:trigger history[j]} | j < |history| ::
      Encodes(history[j], j + 1) && |history[j]| >= cs && Mod(|history[j]|, cs) == 0
  }

  lemma GeneratedDistinct(cs: Pos, history: seq<seq<int>>, i: nat, j: nat)
    requires Generated(cs, history) && |history| <= Pow256(Min(cs, 8)) && i < |history| && j < |history|
    ensures history[i][..cs] == history[j][..cs] ==> i == j
  {
    FirstChunks(cs, history[i], i + 1, history[j], j + 1);
    PeriodDistinct(i + 1, j + 1, Pow256(Min(cs, 8)));
  }

  /** Within one period no two numbers are congruent. */
  lemma PeriodDistinct(n: nat, m: nat, p: Pos)
    requires 1 <= n <= p && 1 <= m <= p
    ensures n % p == m % p <==> n == m
  {
    QuotientUnique(n, p, if n == p then 1 else 0);
    QuotientUnique(m, p, if m == p then 1 else 0);
  }

  /** Every cached prefix starts with the first chunk of a stored sequence. */
  lemma {:induction false} PrefixHasFirstChunk(cs: Pos, history: seq<seq<int>>, p: seq<int>) returns (j: nat)
    requires p in PrefixesAfter(cs, history)
    ensures j < |history| && cs <= |p| && p <= history[j]
  {
    var n := |history| - 1;
    if p in PrefixesOf(cs, history[n]) {
      InPrefixes(cs, history[n], p);
      MultipleAtLeast(|p|, cs);
      j := n;
    } else {
      j := PrefixHasFirstChunk(cs, history[..n], p);
    }
  }

  lemma MultipleAtLeast(n: nat, d: Pos)
    requires n > 0 && Mod(n, d) == 0
    ensures n >= d
  {
  }

  function ChunksIn<T>(cs: Pos): seq<T> -> int { (s: seq<T>) => Div(|s|, cs) }

  predicate LongEnough(cs: Pos, history: seq<seq<int>>)
  {
    forall j {:trigger history[j]} | 0 <= j < |history| :: |history[j]| >= cs
  }

  ghost predicate FirstChunksDiffer(cs: Pos, history: seq<seq<int>>)
    requires LongEnough(cs, history)
  {
    forall i, j | 0 <= i < j < |history| :: history[i][..cs] != history[j][..cs]
  }

  /** The first chunk of every stored sequence is cached. */
  lemma {:induction false} FirstChunkCached(cs: Pos, history: seq<seq<int>>, j: nat)
    requires j < |history| && |history[j]| >= cs
    ensures history[j][..cs] in PrefixesAfter(cs, history)
  {
    var n := |history| - 1;
    if j < n {
      FirstChunkCached(cs, history[..n], j);
    } else {
      assert Mod(cs, cs) == 0;
      InPrefixes(cs, history[n], history[n][..cs]);
    }
  }

  /** A store adds only new prefixes exactly when its first chunk is new. */
  lemma LastIsNewIff(cs: Pos, history: seq<seq<int>>)
    requires history != [] && LongEnough(cs, history)
    ensures var n := |history| - 1;
      PrefixesAfter(cs, history[..n]) !! PrefixesOf(cs, history[n])
      <==> forall j {:trigger history[j]} | 0 <= j < n :: history[j][..cs] != history[n][..cs]
  {
    var n := |history| - 1;
    var before, added := PrefixesAfter(cs, history[..n]), PrefixesOf(cs, history[n]);
    if p :| p in before && p in added {
      var j := PrefixHasFirstChunk(cs, history[..n], p);
      InPrefixes(cs, history[n], p);
      assert history[j][..cs] == p[..cs] == history[n][..cs];
    }
    if j :| 0 <= j < n && history[j][..cs] == history[n][..cs] {
      FirstChunkCached(cs, history[..n], j);
      assert Mod(cs, cs) == 0;
      InPrefixes(cs, history[n], history[n][..cs]);
    }
  }

  /** On an initially empty prefix stack stores never add more than their own chunks, and exactly these when no two of
      them share their first chunk. */
  lemma {:induction false} AllNewIff(cs: Pos, history: seq<seq<int>>)
    requires LongEnough(cs, history)
    ensures |PrefixesAfter(cs, history)| <= Sum(ChunksIn(cs), history)
    ensures |PrefixesAfter(cs, history)| == Sum(ChunksIn(cs), history) <==> FirstChunksDiffer(cs, history)
  {
    if history != [] {
      var n := |history| - 1;
      AllNewIff(cs, history[..n]);
      LastIsNewIff(cs, history);
      CountPrefixesAbove(cs, history[n], 0);
      NewCount(PrefixesAfter(cs, history[..n]), PrefixesOf(cs, history[n]));
      DifferNext(cs, history);
    }
  }

  lemma DifferNext(cs: Pos, history: seq<seq<int>>)
    requires history != [] && LongEnough(cs, history)
    ensures var n := |history| - 1;
      FirstChunksDiffer(cs, history)
      <==> (&& FirstChunksDiffer(cs, history[..n])
            && forall j {:trigger history[j]} | 0 <= j < n :: history[j][..cs] != history[n][..cs])
  {
  }

  /** Up to 256^min(chunk_size, 8) generated sequences never deduplicate: each store adds its own number of chunks. */
  lemma NeverDeduplicates(cs: Pos, history: seq<seq<int>>)
    requires Generated(cs, history) && |history| <= Pow256(Min(cs, 8))
    ensures |PrefixesAfter(cs, history)| == Sum(ChunksIn(cs), history)
  {
    forall i, j | 0 <= i < j < |history|
      ensures history[i][..cs] != history[j][..cs]
    {
      GeneratedDistinct(cs, history, i, j);
    }
    AllNewIff(cs, history);
  }

  /** With chunks of at most 8 tokens, one wrap of the counter later the first chunk repeats. */
  lemma WrapRepeatsChunk(cs: Pos, a: seq<int>, n: nat, b: seq<int>)
    requires cs <= 8 && Encodes(a, n) && Encodes(b, n + Pow256(cs))
    ensures a[..cs] == b[..cs]
  {
    AddPeriod(n, Pow256(cs));
    FirstChunks(cs, a, n, b, n + Pow256(cs));
  }

  lemma FirstRepeats(cs: Pos, history: seq<seq<int>>, p: nat)
    requires cs <= 8 && Generated(cs, history) && p == Pow256(cs) < |history|
    ensures history[0][..cs] == history[p][..cs]
  {
    hide Pow256;
    assert Encodes(history[0], 1) && Encodes(history[p], 1 + p);
    WrapRepeatsChunk(cs, history[0], 1, history[p]);
  }

  lemma RepeatDeduplicates(cs: Pos, history: seq<seq<int>>, p: nat)
    requires cs <= 8 && Generated(cs, history) && p == Pow256(cs) < |history|
    ensures |PrefixesAfter(cs, history)| < Sum(ChunksIn(cs), history)
  {
    hide Pow256;
    FirstRepeats(cs, history, p);
    AllNewIff(cs, history);
  }

  /** With chunks of at most 8 tokens that is the exact bound: one sequence more does deduplicate. */
  lemma DeduplicatesIff(cs: Pos, history: seq<seq<int>>)
    requires cs <= 8 && Generated(cs, history)
    ensures |PrefixesAfter(cs, history)| == Sum(ChunksIn(cs), history) <==> |history| <= Pow256(cs)
  {
    if |history| <= Pow256(cs) {
      NeverDeduplicates(cs, history);
    } else {
      RepeatDeduplicates(cs, history, Pow256(cs));
    }
  }

  lemma LastRepeats(cs: Pos, history: seq<seq<int>>, p: nat)
    requires cs <= 8 && Generated(cs, history) && p == Pow256(cs) < |history|
    ensures var n := |history| - 1; history[n - p][..cs] == history[n][..cs]
  {
    hide Pow256;
    var n := |history| - 1;
    WrapRepeatsChunk(cs, history[n - p], n - p + 1, history[n]);
  }

  lemma LastDiffers(cs: Pos, history: seq<seq<int>>)
    requires history != [] && Generated(cs, history) && |history| <= Pow256(Min(cs, 8))
    ensures var n := |history| - 1; forall j {:trigger history[j]} | 0 <= j < n :: history[j][..cs] != history[n][..cs]
  {
    var n := |history| - 1;
    forall j {:trigger history[j]} | 0 <= j < n
      ensures history[j][..cs] != history[n][..cs]
    {
      GeneratedDistinct(cs, history, j, n);
    }
  }

  /** Then a store adds exactly its own chunks as long as the counter has not passed 256^chunk_size, and fewer after. */
  lemma StoreIsNewIff(cs: Pos, history: seq<seq<int>>)
    requires cs <= 8 && history != [] && Generated(cs, history)
    ensures var n := |history| - 1;
      && |PrefixesAfter(cs, history)| <= |PrefixesAfter(cs, history[..n])| + ChunksIn(cs)(history[n])
      && (|PrefixesAfter(cs, history)| == |PrefixesAfter(cs, history[..n])| + ChunksIn(cs)(history[n])
          <==> |history| <= Pow256(cs))
  {
    var n := |history| - 1;
    CountPrefixesAbove(cs, history[n], 0);
    NewCount(PrefixesAfter(cs, history[..n]), PrefixesOf(cs, history[n]));
    LastIsNewIff(cs, history);
    if |history| <= Pow256(cs) { LastDiffers(cs, history); } else { LastRepeats(cs, history, Pow256(cs)); }
  }
}
