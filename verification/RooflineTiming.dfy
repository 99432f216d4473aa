/** The roofline timing strategy: compute plus communication overhead
(src/kvbench/timing/roofline.py, src/kvbench/timing/communication.py). */
module RooflineTiming {
  import opened Wrappers
  import opened Arith
  import opened Latency
  import opened LatencyTimes

  // ---------------------------------------------------------------- communication

  /** Ring AllReduce: each GPU moves 2 * (N - 1) / N of the message. */
  function AllreduceMs(messageBytes: int, tpSize: Pos, bandwidthGbS: real): real
    requires bandwidthGbS > 0.0
  {
    if tpSize <= 1 then 0.0
    else
      var dataPerGpu := 2.0 * (tpSize - 1) as real / tpSize as real * messageBytes as real;
      dataPerGpu / (bandwidthGbS * 1000000.0)
  }

  /** A fixed 5 microseconds per message plus the transfer. */
  function SendRecvMs(activationBytes: int, bandwidthGbS: real): real
    requires bandwidthGbS > 0.0
  {
    5.0 / 1000.0 + activationBytes as real / (bandwidthGbS * 1000000.0)
  }

  // ---------------------------------------------------------------- the strategy

  datatype TimingResult = TimingResult(totalMs: real, computeMs: real, memoryMs: real, allreduceMs: Option<real>,
                                       pipelineMs: Option<real>, isComputeBound: bool)

  datatype Strategy = Strategy(calculator: Calculator, ppSize: Pos, includeTp: bool, includePp: bool,
                               interconnectGbS: real)
  {
    predicate Valid() { calculator.Valid() && interconnectGbS > 0.0 }

    function AllreduceOverheadMs(tokens: nat, batch: nat): real
      requires Valid()
    {
      if !includeTp || calculator.tpSize <= 1 then 0.0
      else
        var message := batch * tokens * calculator.model.hidden * calculator.model.BytesPerElement();
        AllreduceMs(message, calculator.tpSize, interconnectGbS) * (calculator.model.layers * 2) as real
    }

    function PipelineOverheadMs(tokens: nat, batch: nat): real
      requires Valid()
    {
      if !includePp || ppSize <= 1 then 0.0
      else
        var activation := batch * tokens * calculator.model.hidden * calculator.model.BytesPerElement();
        SendRecvMs(activation, interconnectGbS) * (ppSize - 1) as real
    }

    function BuildResult(base: LatencyBreakdown, allreduceMs: real, pipelineMs: real): TimingResult
    {
      TimingResult(base.totalMs + allreduceMs + pipelineMs, base.computeMs, base.memoryMs,
                   if allreduceMs > 0.0 then Some(allreduceMs) else None,
                   if pipelineMs > 0.0 then Some(pipelineMs) else None, base.isComputeBound)
    }

    function PrefillTiming(n: nat, batch: nat, context: nat): TimingResult
      requires Valid()
    {
      BuildResult(PrefillLatency(calculator, n, batch, context),
                  AllreduceOverheadMs(n, batch), PipelineOverheadMs(n, batch))
    }

    function DecodeTiming(context: nat, batch: nat): TimingResult
      requires Valid()
    {
      BuildResult(DecodeLatency(calculator, context, batch),
                  AllreduceOverheadMs(1, batch), PipelineOverheadMs(1, batch))
    }
  }

  // ---------------------------------------------------------------- overheads are linear in the tokens in flight

  lemma AllreduceAdds(s: Strategy, n1: nat, n2: nat, batch: nat)
    requires s.Valid()
    ensures s.AllreduceOverheadMs(n1 + n2, batch) == s.AllreduceOverheadMs(n1, batch) + s.AllreduceOverheadMs(n2, batch)
  {
  }

  /** Milliseconds of fixed latency in one pass: 5 microseconds at each stage boundary. */
  function FixedMs(s: Strategy): real { if !s.includePp || s.ppSize <= 1 then 0.0 else 0.005 * (s.ppSize - 1) as real }

  /** Two passes pay the fixed latency of every stage boundary twice. */
  lemma PipelineAdds(s: Strategy, n1: nat, n2: nat, batch: nat)
    requires s.Valid()
    ensures s.PipelineOverheadMs(n1, batch) + s.PipelineOverheadMs(n2, batch)
         == s.PipelineOverheadMs(n1 + n2, batch) + FixedMs(s)
    ensures FixedMs(s) >= 0.0
  {
  }

  lemma RealMono(x: real, y: real, a: real)
    requires x <= y && a >= 0.0
    ensures x * a <= y * a
  {
  }

  /** With communication counted, splitting a prefill still never saves time. */
  lemma SplittingNeverSavesTime(s: Strategy, c: nat, n1: nat, n2: nat, batch: nat)
    requires s.Valid()
    ensures s.PrefillTiming(n1 + n2, batch, c).totalMs
         <= s.PrefillTiming(n1, batch, c).totalMs + s.PrefillTiming(n2, batch, c + n1).totalMs
  {
    SplittingNeverSaves(s.calculator, c, n1, n2, batch);
    AllreduceAdds(s, n1, n2, batch);
    PipelineAdds(s, n1, n2, batch);
  }

  // ---------------------------------------------------------------- no super-linear speedup

  function WithTp(s: Strategy, tp: Pos): Strategy { s.(calculator := s.calculator.(tpSize := tp)) }

  /** GPU-time of a pass: what tp GPUs spend on it together. */
  function GpuMs(tp: Pos, totalMs: real): real { tp as real * totalMs }

  lemma RateScales(x: real, e: real, tp: Pos, unit: real)
    ensures x * e * tp as real * unit == (x * e * 1.0 * unit) * tp as real
  {
  }

  lemma MsScales(work: int, rate: real, tp: Pos)
    requires rate > 0.0
    ensures rate * tp as real > 0.0 && tp as real * Ms(work, rate * tp as real) == Ms(work, rate)
  {
  }

  lemma MaxScales(t: real, x: real, y: real)
    requires t > 0.0
    ensures t * MaxReal(x, y) == MaxReal(t * x, t * y)
  {
  }

  /** The roofline itself scales perfectly. */
  lemma RooflineScales(k: Calculator, tp: Pos, flops: int, bytes: int)
    requires k.Valid() && k.tpSize == 1
    ensures tp as real * LatencyTimes.Roofline(k.(tpSize := tp), flops, bytes).totalMs
         == LatencyTimes.Roofline(k, flops, bytes).totalMs
  {
    var k' := k.(tpSize := tp);
    RatesScale(k, tp);
    MsScales(flops, k.FlopRate(), tp);
    MsScales(bytes, k.ByteRate(), tp);
    MaxScales(tp as real, Ms(flops, k'.FlopRate()), Ms(bytes, k'.ByteRate()));
  }

  lemma RatesScale(k: Calculator, tp: Pos)
    requires k.Valid() && k.tpSize == 1
    ensures k.(tpSize := tp).FlopRate() == k.FlopRate() * tp as real
    ensures k.(tpSize := tp).ByteRate() == k.ByteRate() * tp as real
  {
    RateScales(k.bf16Tflops, k.efficiency, tp, 1000000000000.0);
    RateScales(k.bandwidthGbS, k.efficiency, tp, 1000000000.0);
  }

  /** GPU-time of the AllReduces grows with the group. */
  lemma AllreduceGpuMs(s: Strategy, tp: Pos, tp': Pos, n: nat, batch: nat)
    requires s.Valid() && tp <= tp'
    ensures GpuMs(tp, WithTp(s, tp).AllreduceOverheadMs(n, batch))
         <= GpuMs(tp', WithTp(s, tp').AllreduceOverheadMs(n, batch))
  {
    if s.includeTp {
      var m := s.calculator.model;
      var message := batch * n * m.hidden * m.BytesPerElement();
      var ops := (m.layers * 2) as real;
      RingGpuMs(message, tp, s.interconnectGbS);
      RingGpuMs(message, tp', s.interconnectGbS);
      var x := message as real / (s.interconnectGbS * 1000000.0);
      QuotientSign(message as real, s.interconnectGbS * 1000000.0);
      RealMono(2.0 * (tp - 1) as real, 2.0 * (tp' - 1) as real, x);
      RealMono(tp as real * AllreduceMs(message, tp, s.interconnectGbS),
               tp' as real * AllreduceMs(message, tp', s.interconnectGbS), ops);
      TpAllreduce(s, tp, message, n, batch);
      TpAllreduce(s, tp', message, n, batch);
    }
  }

  lemma TpAllreduce(s: Strategy, tp: Pos, message: nat, n: nat, batch: nat)
    requires s.Valid() && s.includeTp
    requires message == batch * n * s.calculator.model.hidden * s.calculator.model.BytesPerElement()
    ensures GpuMs(tp, WithTp(s, tp).AllreduceOverheadMs(n, batch))
         == (tp as real * AllreduceMs(message, tp, s.interconnectGbS)) * (s.calculator.model.layers * 2) as real
  {
  }

  /** N GPUs move 2 * (N - 1) messages between them. */
  lemma RingGpuMs(message: nat, tp: Pos, bw: real)
    requires bw > 0.0
    ensures tp as real * AllreduceMs(message, tp, bw) == 2.0 * (tp - 1) as real * (message as real / (bw * 1000000.0))
  {
  }

  lemma PipelineNonNegative(s: Strategy, n: nat, batch: nat)
    requires s.Valid()
    ensures s.PipelineOverheadMs(n, batch) >= 0.0
  {
  }

  /** The total of one pass over n tokens that does this work. */
  function PassMs(s: Strategy, flops: int, bytes: int, n: nat, batch: nat): real
    requires s.Valid()
  {
    LatencyTimes.Roofline(s.calculator, flops, bytes).totalMs
    + s.AllreduceOverheadMs(n, batch) + s.PipelineOverheadMs(n, batch)
  }

  lemma GpuMsAdds(tp: Pos, x: real, y: real)
    ensures GpuMs(tp, x + y) == GpuMs(tp, x) + GpuMs(tp, y)
  {
  }

  /** GPU-time of a pass: that of one GPU's roofline, of the AllReduces, and of the pipeline transfers. */
  lemma GpuTimeOfPass(s: Strategy, tp: Pos, flops: int, bytes: int, n: nat, batch: nat)
    requires s.Valid()
    ensures GpuMs(tp, PassMs(WithTp(s, tp), flops, bytes, n, batch))
         == LatencyTimes.Roofline(s.calculator.(tpSize := 1), flops, bytes).totalMs
            + GpuMs(tp, WithTp(s, tp).AllreduceOverheadMs(n, batch)) + GpuMs(tp, s.PipelineOverheadMs(n, batch))
  {
    var base := LatencyTimes.Roofline(WithTp(s, tp).calculator, flops, bytes).totalMs;
    var allreduce, pipeline := WithTp(s, tp).AllreduceOverheadMs(n, batch), s.PipelineOverheadMs(n, batch);
    BaseScales(s, tp, flops, bytes);
    SamePipeline(s, tp, n, batch);
    GpuMsAdds(tp, base, allreduce);
    GpuMsAdds(tp, base + allreduce, pipeline);
  }

  lemma BaseScales(s: Strategy, tp: Pos, flops: int, bytes: int)
    requires s.Valid()
    ensures GpuMs(tp, LatencyTimes.Roofline(WithTp(s, tp).calculator, flops, bytes).totalMs)
         == LatencyTimes.Roofline(s.calculator.(tpSize := 1), flops, bytes).totalMs
  {
    var one := s.calculator.(tpSize := 1);
    RooflineScales(one, tp, flops, bytes);
    assert one.(tpSize := tp) == WithTp(s, tp).calculator;
  }

  lemma SamePipeline(s: Strategy, tp: Pos, n: nat, batch: nat)
    requires s.Valid()
    ensures WithTp(s, tp).PipelineOverheadMs(n, batch) == s.PipelineOverheadMs(n, batch)
  {
  }

  lemma GpuTimeGrows(s: Strategy, tp: Pos, tp': Pos, flops: int, bytes: int, n: nat, batch: nat)
    requires s.Valid() && tp <= tp'
    ensures GpuMs(tp, PassMs(WithTp(s, tp), flops, bytes, n, batch))
         <= GpuMs(tp', PassMs(WithTp(s, tp'), flops, bytes, n, batch))
  {
    GpuTimeOfPass(s, tp, flops, bytes, n, batch);
    GpuTimeOfPass(s, tp', flops, bytes, n, batch);
    AllreduceGpuMs(s, tp, tp', n, batch);
    PipelineNonNegative(s, n, batch);
    GpuMsMono(tp, tp', s.PipelineOverheadMs(n, batch));
  }

  lemma GpuMsMono(tp: Pos, tp': Pos, ms: real)
    requires tp <= tp' && ms >= 0.0
    ensures GpuMs(tp, ms) <= GpuMs(tp', ms)
  {
  }

  lemma TimingsArePasses(s: Strategy, n: nat, batch: nat, context: nat)
    requires s.Valid()
    ensures var m := s.calculator.model;
      && s.PrefillTiming(n, batch, context).totalMs
         == PassMs(s, PrefillFlops(m, n, batch, context), PrefillBytes(m, n, batch, context), n, batch)
      && s.DecodeTiming(context, batch).totalMs
         == PassMs(s, DecodeFlops(m, context, batch), DecodeBytes(m, context, batch), 1, batch)
  {
  }

  /** Tensor parallelism never speeds a pass up super-linearly: more GPUs never lower the GPU-time of a prefill or of a
      decode step.  In particular tp * T(tp) >= T(1). */
  lemma NoSuperlinearSpeedup(s: Strategy, tp: Pos, tp': Pos, n: nat, batch: nat, context: nat)
    requires s.Valid() && tp <= tp'
    ensures GpuMs(tp, WithTp(s, tp).PrefillTiming(n, batch, context).totalMs)
         <= GpuMs(tp', WithTp(s, tp').PrefillTiming(n, batch, context).totalMs)
    ensures GpuMs(tp, WithTp(s, tp).DecodeTiming(context, batch).totalMs)
         <= GpuMs(tp', WithTp(s, tp').DecodeTiming(context, batch).totalMs)
  {
    var m := s.calculator.model;
    GpuTimeGrows(s, tp, tp', PrefillFlops(m, n, batch, context), PrefillBytes(m, n, batch, context), n, batch);
    GpuTimeGrows(s, tp, tp', DecodeFlops(m, context, batch), DecodeBytes(m, context, batch), 1, batch);
    TimingsArePasses(WithTp(s, tp), n, batch, context);
    TimingsArePasses(WithTp(s, tp'), n, batch, context);
  }
}
