/** The latency model in the fields of its profiles (src/kvbench/core/latency.py, src/kvbench/core/models.py,
src/kvbench/timing/roofline.py, src/kvbench/timing/communication.py). */
module LatencyFields {
  import opened Wrappers
  import opened Arith
  import opened Latency
  import opened LatencyTimes
  import opened RooflineTiming

  // ---------------------------------------------------------------- FLOPs

  /** A missing head count counts as 32 heads. */
  predicate IsHeads(m: ModelProfile, h: int) { if m.numHeads == 0 then h == 32 else h == m.numHeads }

  predicate IsHeadDim(m: ModelProfile, d: int)
    requires m.Valid()
  {
    if m.headDimOverride.Some? then d == m.headDimOverride.value else d == m.hidden / m.numHeads
  }

  /** What n new tokens cost on top of so many query-key pairs, with h heads of d elements. */
  function FlopsOf(m: ModelProfile, h: int, d: int, pairs: int, n: int, batch: int): int
  {
    batch * m.layers * ((4 * h * d + 5 * h) * pairs
                        + n * (4 * m.hidden * h * d + 4 * m.hidden * m.kvHeads * d + 6 * m.hidden * m.intermediate
                               + m.intermediate))
  }

  lemma FlopsAre(m: ModelProfile, h: int, d: int, pairs: int, n: int, batch: int)
    ensures FlopsOf(m, h, d, pairs, n, batch)
         == ((4 * batch * h * d + 5 * batch * h) * m.layers) * pairs
            + (batch * (6 * m.hidden * m.intermediate + m.intermediate
                        + (4 * m.hidden * h * d + 4 * m.hidden * m.kvHeads * d)) * m.layers) * n
  {
    var x := 4 * h * d + 5 * h;
    var y := 4 * m.hidden * h * d + 4 * m.hidden * m.kvHeads * d + 6 * m.hidden * m.intermediate + m.intermediate;
    assert 4 * batch * h * d + 5 * batch * h == batch * x;
    Regroup(batch, m.layers, x, pairs, y, n);
  }

  lemma Regroup(b: int, l: int, x: int, p: int, y: int, n: int)
    ensures b * l * (x * p + n * y) == ((b * x) * l) * p + (b * y * l) * n
  {
  }

  /** Prefill and decode FLOPs of every valid model, in its own fields. */
  lemma FlopsInFields(m: ModelProfile, h: int, d: int, n: nat, batch: nat, c: nat)
    requires m.Valid() && IsHeads(m, h) && IsHeadDim(m, d)
    ensures PrefillFlops(m, n, batch, c) == FlopsOf(m, h, d, PairSum(c, n), n, batch)
    ensures DecodeFlops(m, c, batch) == FlopsOf(m, h, d, c, 1, batch)
  {
    FlopsLinear(m, n, batch, c);
    FlopsAre(m, h, d, PairSum(c, n), n, batch);
    FlopsAre(m, h, d, c, 1, batch);
  }

  /** When the heads divide the hidden size between them, it is the hidden size that counts. */
  lemma FlopsOfPlainModel(m: ModelProfile, d: nat, n: nat, batch: nat, c: nat)
    requires m.headDimOverride.None? && m.numHeads > 0 && m.hidden == m.numHeads * d
    ensures PrefillFlops(m, n, batch, c)
         == batch * m.layers * ((4 * m.hidden + 5 * m.numHeads) * PairSum(c, n)
                                + n * (4 * m.hidden * m.hidden + 4 * m.hidden * m.kvHeads * d
                                       + 6 * m.hidden * m.intermediate + m.intermediate))
  {
    hide PrefillFlops;
    HeadDimIs(m, d);
    FlopsInFields(m, m.numHeads, d, n, batch, c);
    Regrouped(4, m.numHeads, d);
    Regrouped(4 * m.hidden, m.numHeads, d);
  }

  lemma Regrouped(a: int, x: int, y: int)
    ensures a * x * y == a * (x * y)
  {
  }

  lemma HeadDimIs(m: ModelProfile, d: nat)
    requires m.numHeads > 0 && m.hidden == m.numHeads * d
    ensures m.hidden / m.numHeads == d
  {
    assert d * m.numHeads == m.numHeads * d;
    QuotientUnique(m.hidden, m.numHeads, d);
  }

  /** Grouped-query attention: KV heads do not change the attention FLOPs, and each further one adds its K and V
      projections. */
  lemma OneMoreKvHead(m: ModelProfile, d: int, n: nat, batch: nat, c: nat)
    requires m.Valid() && IsHeadDim(m, d)
    ensures var more := m.(kvHeads := m.kvHeads + 1);
      && AttentionFlopsRange(more, c, n, batch) == AttentionFlopsRange(m, c, n, batch)
      && DecodeAttentionFlops(more, c, batch) == DecodeAttentionFlops(m, c, batch)
      && PrefillFlops(more, n, batch, c) == PrefillFlops(m, n, batch, c) + 4 * m.hidden * d * m.layers * n * batch
  {
    var h := if m.numHeads == 0 then 32 else m.numHeads;
    AttentionIgnoresKvHeads(m, n, batch, c);
    FlopsInFields(m, h, d, n, batch, c);
    FlopsInFields(m.(kvHeads := m.kvHeads + 1), h, d, n, batch, c);
    FlopsOneMore(m, h, d, PairSum(c, n), n, batch);
  }

  lemma AttentionIgnoresKvHeads(m: ModelProfile, n: nat, batch: nat, c: nat)
    requires m.Valid()
    ensures AttentionFlopsRange(m.(kvHeads := m.kvHeads + 1), c, n, batch) == AttentionFlopsRange(m, c, n, batch)
    ensures DecodeAttentionFlops(m.(kvHeads := m.kvHeads + 1), c, batch) == DecodeAttentionFlops(m, c, batch)
  {
  }

  lemma FlopsOneMore(m: ModelProfile, h: int, d: int, pairs: int, n: int, batch: int)
    ensures FlopsOf(m.(kvHeads := m.kvHeads + 1), h, d, pairs, n, batch)
         == FlopsOf(m, h, d, pairs, n, batch) + 4 * m.hidden * d * m.layers * n * batch
  {
    var x := 4 * m.hidden * h * d + 6 * m.hidden * m.intermediate + m.intermediate;
    OneMore(batch * m.layers, (4 * h * d + 5 * h) * pairs, n, x, 4 * m.hidden * d, m.kvHeads);
    Swapped(4 * m.hidden, m.kvHeads + 1, d);
    Swapped(4 * m.hidden, m.kvHeads, d);
    Reorder(batch, m.layers, n, 4 * m.hidden * d);
  }

  lemma Swapped(a: int, x: int, y: int)
    ensures a * x * y == a * y * x
  {
  }

  lemma Reorder(b: int, l: int, n: int, y: int)
    ensures b * l * n * y == y * l * n * b
  {
  }

  lemma OneMore(bl: int, pairs: int, n: int, x: int, y: int, k: int)
    ensures bl * (pairs + n * (x + y * (k + 1))) == bl * (pairs + n * (x + y * k)) + bl * n * y
  {
  }

  /** The profile llama-3.1-8b, but for the weights. */
  function Llama8B(weightBytes: nat): ModelProfile
  {
    ModelProfile(32, 4096, 8, 14336, 32, Bf16, None, None, weightBytes)
  }

  lemma Llama8BFlops(weightBytes: nat)
    ensures PrefillFlops(Llama8B(weightBytes), 1, 1, 0) == 13959631872
    ensures Llama8B(weightBytes).KvBytesPerToken() == 131072
  {
  }

  // ---------------------------------------------------------------- bytes

  predicate IsElementSize(m: ModelProfile, size: int) { if m.dtype == Fp8 then size == 1 else size == 2 }

  /** Only the layers that hold a cache count for it. */
  predicate IsKvLayers(m: ModelProfile, l: int)
  {
    if m.kvLayers.Some? then l == m.kvLayers.value else l == m.layers
  }

  /** Weights, a key and a value for each cached token, and two bytes for each activation of the new ones. */
  lemma BytesInFields(m: ModelProfile, d: nat, size: nat, l: nat, n: nat, batch: nat, c: nat)
    requires m.Valid() && IsHeadDim(m, d) && IsElementSize(m, size) && IsKvLayers(m, l)
    ensures var kv := 2 * m.kvHeads * d * size * l;
      && m.KvBytesPerToken() == kv
      && PrefillBytes(m, n, batch, c)
         == m.weightBytes + (kv * batch) * (c + n) + (2 * m.hidden * m.layers * batch) * n
      && DecodeBytes(m, c, batch) == m.weightBytes + (kv * batch) * (c + 1)
  {
    BytesLinear(m, n, batch, c);
  }

  // ---------------------------------------------------------------- times

  lemma MsTimesRate(work: int, rate: real)
    requires rate > 0.0
    ensures Ms(work, rate) * rate == 1000.0 * work as real
  {
  }

  /** The group computes tp_size times the efficient share of one GPU's teraflops, and moves gigabytes likewise; the
      longer of the two times counts. */
  lemma RooflineInFields(k: Calculator, flops: int, bytes: int)
    requires k.Valid()
    ensures var r, share := LatencyTimes.Roofline(k, flops, bytes), k.efficiency * k.tpSize as real;
      && r.computeMs * (k.bf16Tflops * share * 1000000000000.0) == 1000.0 * flops as real
      && r.memoryMs * (k.bandwidthGbS * share * 1000000000.0) == 1000.0 * bytes as real
      && r.totalMs == (if r.isComputeBound then r.computeMs else r.memoryMs)
      && r.totalMs >= r.computeMs && r.totalMs >= r.memoryMs
      && (r.isComputeBound <==> r.computeMs >= r.memoryMs) && r.flops == flops && r.bytesAccessed == bytes
  {
    MsTimesRate(flops, k.FlopRate());
    MsTimesRate(bytes, k.ByteRate());
    Associates(k.bf16Tflops, k.efficiency, k.tpSize as real, 1000000000000.0);
    Associates(k.bandwidthGbS, k.efficiency, k.tpSize as real, 1000000000.0);
  }

  lemma Associates(x: real, e: real, tp: real, unit: real)
    ensures x * e * tp * unit == x * (e * tp) * unit
  {
  }

  /** The passes take the roofline's time for their own work, and TTFT is that of the missing tokens or, with none
      missing, of one decode step. */
  lemma PassesInFields(k: Calculator, n: nat, batch: nat, c: nat, hits: nat)
    requires k.Valid()
    ensures PrefillLatency(k, n, batch, c)
         == LatencyTimes.Roofline(k, PrefillFlops(k.model, n, batch, c), PrefillBytes(k.model, n, batch, c))
    ensures DecodeLatency(k, c, batch)
         == LatencyTimes.Roofline(k, DecodeFlops(k.model, c, batch), DecodeBytes(k.model, c, batch))
    ensures EstimateTtft(k, n, hits, batch)
         == if hits < n then PrefillLatency(k, n - hits, batch, hits).totalMs else DecodeLatency(k, n, batch).totalMs
  {
  }

  /** The first output token is part of the prefill; the decode steps of a longer output start where a shorter one
      stops. */
  lemma {:induction false} DecodeTotalSplits(k: Calculator, input: nat, a: nat, b: nat, batch: nat)
    requires k.Valid() && a >= 1
    ensures DecodeTotal(k, input, 0, batch) == DecodeTotal(k, input, 1, batch) == 0.0
    ensures DecodeTotal(k, input, 2, batch) == DecodeLatency(k, input + 1, batch).totalMs
    ensures DecodeTotal(k, input, a + b, batch)
         == DecodeTotal(k, input, a, batch) + DecodeTotal(k, input + a - 1, b + 1, batch)
    decreases b
  {
    if b > 0 { DecodeTotalSplits(k, input, a, b - 1, batch); }
  }

  // ---------------------------------------------------------------- communication

  /** The hidden states of all tokens in flight. */
  function Message(s: Strategy, size: int, tokens: nat, batch: nat): int
  {
    batch * tokens * s.calculator.model.hidden * size
  }

  lemma MessageIs(s: Strategy, size: nat, tokens: nat, batch: nat)
    requires IsElementSize(s.calculator.model, size)
    ensures Message(s, size, tokens, batch)
         == batch * tokens * s.calculator.model.hidden * s.calculator.model.BytesPerElement()
  {
  }

  /** Two AllReduces a layer, each moving 2 * (N - 1) / N of the message at GB/s. */
  lemma AllreduceInFields(s: Strategy, size: nat, tokens: nat, batch: nat)
    requires s.Valid() && IsElementSize(s.calculator.model, size)
    ensures !s.includeTp || s.calculator.tpSize == 1 ==> s.AllreduceOverheadMs(tokens, batch) == 0.0
    ensures s.includeTp ==>
      var tp, layers := s.calculator.tpSize, s.calculator.model.layers;
      tp as real * s.AllreduceOverheadMs(tokens, batch) * (s.interconnectGbS * 1000000.0)
      == 2.0 * (tp - 1) as real * Message(s, size, tokens, batch) as real * (layers * 2) as real
  {
    if s.includeTp {
      var tp: int, layers, bw := s.calculator.tpSize, s.calculator.model.layers, s.interconnectGbS;
      MessageIs(s, size, tokens, batch);
      var message: int := Message(s, size, tokens, batch);
      assert WithTp(s, tp) == s;
      TpAllreduce(s, tp, message, tokens, batch);
      RingGpuMs(message, tp, bw);
      Scaled(tp as real * AllreduceMs(message, tp, bw), 2.0 * (tp - 1) as real, message as real, bw * 1000000.0,
             (layers * 2) as real);
    }
  }

  lemma Scaled(y: real, a: real, m: real, w: real, l: real)
    requires w > 0.0 && y == a * (m / w)
    ensures (y * l) * w == a * m * l
  {
    assert (m / w) * w == m;
    assert (y * l) * w == a * ((m / w) * w) * l;
  }

  /** At each of the pp_size - 1 stage boundaries: 5 microseconds, and the activations at GB/s. */
  lemma PipelineInFields(s: Strategy, size: nat, tokens: nat, batch: nat)
    requires s.Valid() && IsElementSize(s.calculator.model, size)
    ensures !s.includePp || s.ppSize == 1 ==> s.PipelineOverheadMs(tokens, batch) == 0.0
    ensures s.includePp ==>
      var boundaries, w := (s.ppSize - 1) as real, s.interconnectGbS * 1000000.0;
      s.PipelineOverheadMs(tokens, batch) * w == boundaries * (0.005 * w + Message(s, size, tokens, batch) as real)
  {
    if s.includePp && s.ppSize > 1 {
      MessageIs(s, size, tokens, batch);
      Transfer(Message(s, size, tokens, batch) as real, s.interconnectGbS * 1000000.0, (s.ppSize - 1) as real);
    }
  }

  lemma Transfer(m: real, w: real, b: real)
    requires w > 0.0
    ensures (5.0 / 1000.0 + m / w) * b * w == b * (0.005 * w + m)
  {
    assert (m / w) * w == m;
    assert (5.0 / 1000.0 + m / w) * b * w == b * (0.005 * w + (m / w) * w);
  }

  /** A pass takes its roofline and its overheads; an overhead of zero is reported as none. */
  lemma TimingsInFields(s: Strategy, n: nat, batch: nat, c: nat)
    requires s.Valid()
    ensures IsTimingOf(s.PrefillTiming(n, batch, c), PrefillLatency(s.calculator, n, batch, c),
                       s.AllreduceOverheadMs(n, batch), s.PipelineOverheadMs(n, batch))
    ensures IsTimingOf(s.DecodeTiming(c, batch), DecodeLatency(s.calculator, c, batch),
                       s.AllreduceOverheadMs(1, batch), s.PipelineOverheadMs(1, batch))
  {
  }

  predicate IsTimingOf(t: TimingResult, base: LatencyBreakdown, allreduceMs: real, pipelineMs: real)
  {
    && t.totalMs == base.totalMs + allreduceMs + pipelineMs && t.computeMs == base.computeMs
    && t.memoryMs == base.memoryMs && t.isComputeBound == base.isComputeBound
    && (t.allreduceMs.Some? <==> allreduceMs > 0.0) && (t.allreduceMs.Some? ==> t.allreduceMs.value == allreduceMs)
    && (t.pipelineMs.Some? <==> pipelineMs > 0.0) && (t.pipelineMs.Some? ==> t.pipelineMs.value == pipelineMs)
  }
}
