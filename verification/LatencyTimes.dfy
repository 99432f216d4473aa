/** Latencies of prefill, decode and whole generations (src/kvbench/core/latency.py). */
module LatencyTimes {
  import opened Wrappers
  import opened Arith
  import opened Latency

  function MaxReal(x: real, y: real): real { if x >= y then x else y }

  /** work / rate, in milliseconds. */
  function Ms(work: int, rate: real): real
    requires rate > 0.0
  {
    work as real / rate * 1000.0
  }

  lemma MsAdds(x: int, y: int, rate: real)
    requires rate > 0.0
    ensures Ms(x + y, rate) == Ms(x, rate) + Ms(y, rate)
  {
  }

  lemma QuotientSign(x: real, r: real)
    requires r > 0.0
    ensures (x / r > 0.0 <==> x > 0.0) && (x / r >= 0.0 <==> x >= 0.0)
  {
  }

  lemma MsOrders(x: int, y: int, rate: real)
    requires rate > 0.0
    ensures (Ms(x, rate) < Ms(y, rate) <==> x < y) && (Ms(x, rate) <= Ms(y, rate) <==> x <= y)
  {
  }

  // ---------------------------------------------------------------- the calculator

  datatype LatencyBreakdown = LatencyBreakdown(computeMs: real, memoryMs: real, totalMs: real, isComputeBound: bool,
                                               flops: int, bytesAccessed: int)

  datatype Calculator = Calculator(model: ModelProfile, bf16Tflops: real, bandwidthGbS: real, tpSize: Pos,
                                   efficiency: real)
  {
    predicate Valid() { model.Valid() && bf16Tflops > 0.0 && bandwidthGbS > 0.0 && efficiency > 0.0 }

    /** FLOPs per second, and bytes per second, of the whole tensor-parallel group. */
    function FlopRate(): (r: real)
      requires Valid()
      ensures r > 0.0
    {
      PositiveRate(bf16Tflops, efficiency, tpSize, 1000000000000.0);
      bf16Tflops * efficiency * tpSize as real * 1000000000000.0
    }

    function ByteRate(): (r: real)
      requires Valid()
      ensures r > 0.0
    {
      PositiveRate(bandwidthGbS, efficiency, tpSize, 1000000000.0);
      bandwidthGbS * efficiency * tpSize as real * 1000000000.0
    }
  }

  lemma PositiveRate(x: real, e: real, tp: Pos, unit: real)
    requires x > 0.0 && e > 0.0 && unit > 0.0
    ensures x * e * tp as real * unit > 0.0
  {
  }

  function Roofline(k: Calculator, flops: int, bytes: int): LatencyBreakdown
    requires k.Valid()
  {
    var computeMs, memoryMs := Ms(flops, k.FlopRate()), Ms(bytes, k.ByteRate());
    LatencyBreakdown(computeMs, memoryMs, MaxReal(computeMs, memoryMs), computeMs >= memoryMs, flops, bytes)
  }

  function PrefillLatency(k: Calculator, n: nat, batch: nat, context: nat): LatencyBreakdown
    requires k.Valid()
  {
    Roofline(k, PrefillFlops(k.model, n, batch, context), PrefillBytes(k.model, n, batch, context))
  }

  function DecodeLatency(k: Calculator, context: nat, batch: nat): LatencyBreakdown
    requires k.Valid()
  {
    Roofline(k, DecodeFlops(k.model, context, batch), DecodeBytes(k.model, context, batch))
  }

  function EstimateTtft(k: Calculator, input: nat, hits: nat, batch: nat): real
    requires k.Valid()
  {
    var prefill := Max(0, input - hits);
    var cached := input - prefill;
    if prefill > 0 then PrefillLatency(k, prefill, batch, cached).totalMs else DecodeLatency(k, input, batch).totalMs
  }

  // ---------------------------------------------------------------- more work never takes less time

  lemma RooflineMonotone(k: Calculator, f: int, b: int, f': int, b': int)
    requires k.Valid() && f <= f' && b <= b'
    ensures Roofline(k, f, b).totalMs <= Roofline(k, f', b').totalMs
  {
  }

  lemma RooflineSubadditive(k: Calculator, f1: int, b1: int, f2: int, b2: int)
    requires k.Valid()
    ensures Roofline(k, f1 + f2, b1 + b2).totalMs <= Roofline(k, f1, b1).totalMs + Roofline(k, f2, b2).totalMs
  {
    MsAdds(f1, f2, k.FlopRate());
    MsAdds(b1, b2, k.ByteRate());
  }

  // ---------------------------------------------------------------- splitting a prefill

  lemma WorkSplits(m: ModelProfile, c: nat, n1: nat, n2: nat, batch: nat)
    requires m.Valid()
    ensures PrefillFlops(m, n1 + n2, batch, c) == PrefillFlops(m, n1, batch, c) + PrefillFlops(m, n2, batch, c + n1)
    ensures PrefillBytes(m, n1 + n2, batch, c) <= PrefillBytes(m, n1, batch, c) + PrefillBytes(m, n2, batch, c + n1)
  {
    FlopsLinear(m, n1 + n2, batch, c);
    FlopsLinear(m, n1, batch, c);
    FlopsLinear(m, n2, batch, c + n1);
    PairSumSplits(c, n1, n2);
    Distributes(PerPair(m, batch), PairSum(c, n1), PairSum(c + n1, n2));
    Distributes(PerToken(m, batch), n1, n2);
    BytesLinear(m, n1 + n2, batch, c);
    BytesLinear(m, n1, batch, c);
    BytesLinear(m, n2, batch, c + n1);
    Distributes(ActivationPerToken(m, batch), n1, n2);
    ProductNonNegative(KvPerToken(m, batch), c + n1);
  }

  lemma Distributes(a: int, x: int, y: int)
    ensures a * (x + y) == a * x + a * y
  {
  }

  /** Splitting a prefill conserves its FLOPs, and never saves time. */
  lemma SplittingNeverSaves(k: Calculator, c: nat, n1: nat, n2: nat, batch: nat)
    requires k.Valid()
    ensures PrefillLatency(k, n1 + n2, batch, c).flops
         == PrefillLatency(k, n1, batch, c).flops + PrefillLatency(k, n2, batch, c + n1).flops
    ensures PrefillLatency(k, n1 + n2, batch, c).totalMs
         <= PrefillLatency(k, n1, batch, c).totalMs + PrefillLatency(k, n2, batch, c + n1).totalMs
  {
    var m := k.model;
    WorkSplits(m, c, n1, n2, batch);
    var f1, f2 := PrefillFlops(m, n1, batch, c), PrefillFlops(m, n2, batch, c + n1);
    var b1, b2 := PrefillBytes(m, n1, batch, c), PrefillBytes(m, n2, batch, c + n1);
    RooflineSubadditive(k, f1, b1, f2, b2);
    RooflineMonotone(k, f1 + f2, PrefillBytes(m, n1 + n2, batch, c), f1 + f2, b1 + b2);
  }

  // ---------------------------------------------------------------- cache hits and the first token

  /** The decode step of a fully cached input does the FLOPs of prefilling its last token. */
  lemma DecodeIsLastPrefill(m: ModelProfile, input: nat, batch: nat)
    requires m.Valid() && input >= 1
    ensures DecodeFlops(m, input, batch) == PrefillFlops(m, 1, batch, input - 1)
    ensures DecodeBytes(m, input, batch) - PrefillBytes(m, 1, batch, input - 1)
         == KvPerToken(m, batch) - ActivationPerToken(m, batch)
  {
  }

  lemma FewerTokensLessWork(m: ModelProfile, input: nat, h1: nat, h2: nat, batch: nat)
    requires m.Valid() && h1 <= h2 <= input
    ensures PrefillFlops(m, input - h2, batch, h2) <= PrefillFlops(m, input - h1, batch, h1)
    ensures PrefillBytes(m, input - h2, batch, h2) <= PrefillBytes(m, input - h1, batch, h1)
  {
    FlopsLinear(m, input - h1, batch, h1);
    FlopsLinear(m, input - h2, batch, h2);
    PairSumSplits(h1, h2 - h1, input - h2);
    Distributes(PerPair(m, batch), PairSum(h1, h2 - h1), PairSum(h2, input - h2));
    ProductNonNegative(PerPair(m, batch), PairSum(h1, h2 - h1));
    PerTokenNonNegative(m, batch);
    Distributes(PerToken(m, batch), h2 - h1, input - h2);
    ProductNonNegative(PerToken(m, batch), h2 - h1);
    BytesLinear(m, input - h1, batch, h1);
    BytesLinear(m, input - h2, batch, h2);
    Distributes(ActivationPerToken(m, batch), h2 - h1, input - h2);
    ProductNonNegative(ActivationPerToken(m, batch), h2 - h1);
  }

  /** When serving everything from the cache is no slower than prefilling the last token: the cache entry of a token is
      no larger than its activations, or the decode step is compute bound anyway. */
  predicate HitsHelp(k: Calculator, input: nat, batch: nat)
    requires k.Valid()
  {
    || input == 0 || batch == 0
    || k.model.KvBytesPerToken() <= 2 * k.model.hidden * k.model.layers
    || DecodeLatency(k, input, batch).isComputeBound
  }

  lemma BatchCancels(x: nat, y: nat, batch: nat)
    ensures x * batch <= y * batch <==> x <= y || batch == 0
  {
  }

  /** The step from one missing token to none. */
  lemma LastTokenCached(k: Calculator, input: nat, batch: nat)
    requires k.Valid() && input >= 1
    ensures DecodeLatency(k, input, batch).totalMs <= PrefillLatency(k, 1, batch, input - 1).totalMs
       <==> HitsHelp(k, input, batch)
  {
    var m := k.model;
    DecodeIsLastPrefill(m, input, batch);
    BatchCancels(m.KvBytesPerToken(), 2 * m.hidden * m.layers, batch);
    MsOrders(DecodeBytes(m, input, batch), PrefillBytes(m, 1, batch, input - 1), k.ByteRate());
  }

  /** Within its condition, more cache hits never delay the first token, hits beyond the input included. */
  lemma HitsNeverDelay(k: Calculator, input: nat, h1: nat, h2: nat, batch: nat)
    requires k.Valid() && h1 <= h2
    ensures HitsHelp(k, input, batch) ==> EstimateTtft(k, input, h2, batch) <= EstimateTtft(k, input, h1, batch)
  {
    var m := k.model;
    var a, b := Min(h1, input), Min(h2, input);
    if HitsHelp(k, input, batch) && a < input {
      FewerTokensLessWork(m, input, a, Min(b, input - 1), batch);
      RooflineMonotone(k, PrefillFlops(m, input - Min(b, input - 1), batch, Min(b, input - 1)),
                       PrefillBytes(m, input - Min(b, input - 1), batch, Min(b, input - 1)),
                       PrefillFlops(m, input - a, batch, a), PrefillBytes(m, input - a, batch, a));
      if b == input { LastTokenCached(k, input, batch); }
    }
  }

  /** TTFT is non-increasing in the number of cache hits exactly when the condition holds. */
  lemma TtftMonotoneIff(k: Calculator, input: nat, batch: nat)
    requires k.Valid()
    ensures (forall h1: nat, h2: nat | h1 <= h2 ::
              EstimateTtft(k, input, h2, batch) <= EstimateTtft(k, input, h1, batch))
       <==> HitsHelp(k, input, batch)
  {
    if HitsHelp(k, input, batch) {
      forall h1: nat, h2: nat | h1 <= h2
        ensures EstimateTtft(k, input, h2, batch) <= EstimateTtft(k, input, h1, batch)
      {
        HitsNeverDelay(k, input, h1, h2, batch);
      }
    } else {
      LastTokenCached(k, input, batch);
      assert EstimateTtft(k, input, input, batch) > EstimateTtft(k, input, input - 1, batch);
    }
  }

  // ---------------------------------------------------------------- whole generations

  /** The decode steps for output tokens 2..output. */
  function DecodeTotal(k: Calculator, input: nat, output: nat, batch: nat): real
    requires k.Valid()
  {
    if output <= 1 then 0.0
    else DecodeTotal(k, input, output - 1, batch) + DecodeLatency(k, input + output - 1, batch).totalMs
  }

  datatype GenerationTime = GenerationTime(prefillMs: real, decodeMs: real, totalMs: real, ttftMs: real,
                                           tokensPerSecond: real)

  method DecodeLoop(k: Calculator, input: nat, output: nat, batch: nat) returns (decodeMs: real)
    requires k.Valid()
    ensures decodeMs == DecodeTotal(k, input, output, batch)
  {
    decodeMs := 0.0;
    var i := 1;
    while i < output
      invariant 1 <= i <= Max(1, output) && decodeMs == DecodeTotal(k, input, i, batch)
    {
      var step := DecodeLatency(k, input + i, batch);
      decodeMs := decodeMs + step.totalMs;
      i := i + 1;
    }
  }

  function TokensPerSecond(output: nat, totalMs: real): (r: real)
    ensures totalMs > 0.0 ==> r * totalMs == 1000.0 * output as real
    ensures totalMs <= 0.0 ==> r == 0.0
  {
    if totalMs > 0.0 then
      RateTimesTotal(output as real, totalMs);
      output as real / (totalMs / 1000.0)
    else 0.0
  }

  function GenerationTotal(k: Calculator, input: nat, output: nat, hits: nat, batch: nat): real
    requires k.Valid()
  {
    EstimateTtft(k, input, hits, batch) + DecodeTotal(k, input, output, batch)
  }

  method EstimateGenerationTime(k: Calculator, input: nat, output: nat, hits: nat,
                                batch: nat) returns (r: GenerationTime)
    requires k.Valid()
    ensures r.prefillMs == r.ttftMs == EstimateTtft(k, input, hits, batch)
    ensures r.decodeMs == DecodeTotal(k, input, output, batch) && r.totalMs == r.prefillMs + r.decodeMs
    ensures r.tokensPerSecond == TokensPerSecond(output, r.totalMs)
    ensures r.totalMs == GenerationTotal(k, input, output, hits, batch)
    ensures r.totalMs > 0.0 ==> r.tokensPerSecond * r.totalMs == 1000.0 * output as real
  {
    hide PrefillLatency, DecodeLatency, DecodeTotal, TokensPerSecond;
    var prefillTokens := Max(0, input - hits);
    var cachedTokens := input - prefillTokens;
    var prefill;
    if prefillTokens > 0 {
      prefill := PrefillLatency(k, prefillTokens, batch, cachedTokens);
    } else {
      prefill := DecodeLatency(k, input, batch);
    }
    var prefillMs := prefill.totalMs;
    var decodeMs := DecodeLoop(k, input, output, batch);
    var totalMs := prefillMs + decodeMs;
    var ttftMs := EstimateTtft(k, input, hits, batch);
    r := GenerationTime(prefillMs, decodeMs, totalMs, ttftMs, TokensPerSecond(output, totalMs));
  }

  lemma RateTimesTotal(x: real, t: real)
    requires t > 0.0
    ensures x / (t / 1000.0) * t == 1000.0 * x
  {
  }

  /** The same condition decides whether the total generation time is non-increasing in the hits. */
  lemma GenerationMonotoneIff(k: Calculator, input: nat, output: nat, batch: nat)
    requires k.Valid()
    ensures (forall h1: nat, h2: nat | h1 <= h2 ::
              GenerationTotal(k, input, output, h2, batch) <= GenerationTotal(k, input, output, h1, batch))
       <==> HitsHelp(k, input, batch)
  {
    if HitsHelp(k, input, batch) {
      forall h1: nat, h2: nat | h1 <= h2
        ensures GenerationTotal(k, input, output, h2, batch) <= GenerationTotal(k, input, output, h1, batch)
      {
        HitsNeverDelay(k, input, h1, h2, batch);
      }
    } else {
      LastTokenCached(k, input, batch);
      assert GenerationTotal(k, input, output, input, batch) > GenerationTotal(k, input, output, input - 1, batch);
    }
  }

  /** A model with as many KV heads as heads misses the condition: caching its last prompt token delays the first
      output token. */
  lemma FullCacheCanDelay()
    ensures var m := ModelProfile(32, 4096, 32, 11008, 32, Bf16, None, None, 13476839424);
      var k := Calculator(m, 989.0, 3350.0, 1, 0.7);
      k.Valid() && !HitsHelp(k, 1000, 1) && EstimateTtft(k, 1000, 1000, 1) > EstimateTtft(k, 1000, 999, 1)
  {
  }
}
