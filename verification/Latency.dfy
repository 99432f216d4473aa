/** The roofline latency model: exact FLOP and byte counts, and a maximum of two times
(src/kvbench/core/latency.py, src/kvbench/core/models.py).  FLOPs and bytes are integers, times are reals. */
module Latency {
  import opened Wrappers

  // ---------------------------------------------------------------- the model profile

  datatype Dtype = Fp16 | Bf16 | Fp8

  /** `weightBytes` stands for the parameter count times the element size. */
  datatype ModelProfile = ModelProfile(layers: nat, hidden: nat, kvHeads: nat, intermediate: nat, numHeads: nat,
                                       dtype: Dtype, kvLayers: Option<nat>, headDimOverride: Option<nat>,
                                       weightBytes: nat)
  {
    /** Deriving the head dimension divides by the number of heads. */
    predicate Valid() { headDimOverride.None? ==> numHeads > 0 }

    function HeadDim(): nat
      requires Valid()
    {
      if headDimOverride.Some? then headDimOverride.value else hidden / numHeads
    }

    function Heads(): nat { if numHeads == 0 then 32 else numHeads }

    function BytesPerElement(): nat { if dtype.Fp8? then 1 else 2 }

    function KvLayers(): nat { if kvLayers.Some? then kvLayers.value else layers }

    /** `total_kv_cache_bytes_per_token`. */
    function KvBytesPerToken(): nat
      requires Valid()
    {
      2 * kvHeads * HeadDim() * BytesPerElement() * KvLayers()
    }
  }

  // ---------------------------------------------------------------- FLOPs

  /** Query-key pairs of n new tokens on top of c cached ones. */
  function Pairs(c: nat, n: nat): int
  {
    var end := c + n;
    (end * end + end - c * c - c) / 2
  }

  /** The token at position p attends to p + 1 keys. */
  function PairSum(c: nat, n: nat): nat { if n == 0 then 0 else PairSum(c, n - 1) + (c + n) }

  /** The closed form halves an even number, twice the sum. */
  lemma {:induction false} PairsIsSum(c: nat, n: nat)
    ensures var end := c + n; end * end + end - c * c - c == 2 * PairSum(c, n)
    ensures Pairs(c, n) == PairSum(c, n)
  {
    if n > 0 {
      PairsIsSum(c, n - 1);
      var e := c + n - 1;
      assert (e + 1) * (e + 1) == e * e + 2 * e + 1;
    }
  }

  lemma {:induction false} PairSumSplits(c: nat, n1: nat, n2: nat)
    ensures PairSum(c, n1 + n2) == PairSum(c, n1) + PairSum(c + n1, n2)
  {
    if n2 > 0 { PairSumSplits(c, n1, n2 - 1); }
  }

  function AttentionFlopsRange(m: ModelProfile, c: nat, n: nat, batch: nat): int
    requires m.Valid()
  {
    var pairs := Pairs(c, n);
    var qkFlops := 2 * batch * m.Heads() * pairs * m.HeadDim();
    var softmaxFlops := 5 * batch * m.Heads() * pairs;
    var avFlops := 2 * batch * m.Heads() * pairs * m.HeadDim();
    (qkFlops + softmaxFlops + avFlops) * m.layers
  }

  function DecodeAttentionFlops(m: ModelProfile, context: nat, batch: nat): int
    requires m.Valid()
  {
    var qkFlops := 2 * batch * m.Heads() * context * m.HeadDim();
    var softmaxFlops := 5 * batch * m.Heads() * context;
    var avFlops := 2 * batch * m.Heads() * context * m.HeadDim();
    (qkFlops + softmaxFlops + avFlops) * m.layers
  }

  function FfnFlops(m: ModelProfile, n: nat, batch: nat): int
  {
    var tokens := n * batch;
    var upFlops := 2 * tokens * m.hidden * m.intermediate;
    var gateFlops := 2 * tokens * m.hidden * m.intermediate;
    var siluMulFlops := tokens * m.intermediate;
    var downFlops := 2 * tokens * m.intermediate * m.hidden;
    (upFlops + gateFlops + siluMulFlops + downFlops) * m.layers
  }

  function ProjectionFlops(m: ModelProfile, n: nat, batch: nat): int
    requires m.Valid()
  {
    var tokens := n * batch;
    var qFlops := 2 * tokens * m.hidden * (m.Heads() * m.HeadDim());
    var kFlops := 2 * tokens * m.hidden * (m.kvHeads * m.HeadDim());
    var vFlops := 2 * tokens * m.hidden * (m.kvHeads * m.HeadDim());
    var oFlops := 2 * tokens * (m.Heads() * m.HeadDim()) * m.hidden;
    (qFlops + kFlops + vFlops + oFlops) * m.layers
  }

  function PrefillFlops(m: ModelProfile, n: nat, batch: nat, c: nat): int
    requires m.Valid()
  {
    AttentionFlopsRange(m, c, n, batch) + FfnFlops(m, n, batch) + ProjectionFlops(m, n, batch)
  }

  function DecodeFlops(m: ModelProfile, context: nat, batch: nat): int
    requires m.Valid()
  {
    DecodeAttentionFlops(m, context, batch) + FfnFlops(m, 1, batch) + ProjectionFlops(m, 1, batch)
  }

  // ---------------------------------------------------------------- bytes

  function PrefillBytes(m: ModelProfile, n: nat, batch: nat, c: nat): int
    requires m.Valid()
  {
    var kvWriteBytes := m.KvBytesPerToken() * n * batch;
    var kvReadBytes := m.KvBytesPerToken() * c * batch;
    var activationBytes := m.hidden * n * batch * 2 * m.layers;
    m.weightBytes + kvWriteBytes + kvReadBytes + activationBytes
  }

  function DecodeBytes(m: ModelProfile, context: nat, batch: nat): int
    requires m.Valid()
  {
    m.weightBytes + m.KvBytesPerToken() * context * batch + m.KvBytesPerToken() * batch
  }

  // ---------------------------------------------------------------- what they are linear in

  /** FLOPs per query-key pair, and per token. */
  function PerPair(m: ModelProfile, batch: nat): nat
    requires m.Valid()
  {
    (4 * batch * m.Heads() * m.HeadDim() + 5 * batch * m.Heads()) * m.layers
  }

  function PerToken(m: ModelProfile, batch: nat): int
    requires m.Valid()
  {
    var h, d := m.Heads(), m.HeadDim();
    var ffn := 6 * m.hidden * m.intermediate + m.intermediate;
    var projections := 4 * m.hidden * h * d + 4 * m.hidden * m.kvHeads * d;
    batch * (ffn + projections) * m.layers
  }

  lemma ProductNonNegative(a: int, b: int)
    requires a >= 0 && b >= 0
    ensures a * b >= 0
  {
  }

  lemma PerTokenNonNegative(m: ModelProfile, batch: nat)
    requires m.Valid()
    ensures PerToken(m, batch) >= 0
  {
    var h, d := m.Heads(), m.HeadDim();
    ProductNonNegative(m.hidden, m.intermediate);
    ProductNonNegative(m.hidden, h);
    ProductNonNegative(m.hidden * h, d);
    ProductNonNegative(m.hidden, m.kvHeads);
    ProductNonNegative(m.hidden * m.kvHeads, d);
    var x := 6 * m.hidden * m.intermediate + m.intermediate + 4 * m.hidden * h * d + 4 * m.hidden * m.kvHeads * d;
    assert x == 6 * (m.hidden * m.intermediate) + m.intermediate + 4 * (m.hidden * h * d)
                + 4 * (m.hidden * m.kvHeads * d);
    ProductNonNegative(batch, x);
    ProductNonNegative(batch * x, m.layers);
  }

  /** Bytes of cache per token, and of activations per token. */
  function KvPerToken(m: ModelProfile, batch: nat): nat
    requires m.Valid()
  {
    m.KvBytesPerToken() * batch
  }

  function ActivationPerToken(m: ModelProfile, batch: nat): nat { 2 * m.hidden * m.layers * batch }

  lemma AttentionLinear(b: int, h: int, d: int, l: int, p: int)
    ensures (2 * b * h * p * d + 5 * b * h * p + 2 * b * h * p * d) * l == ((4 * b * h * d + 5 * b * h) * l) * p
  {
  }

  lemma TokensLinear(b: int, n: int, hid: int, int_: int, l: int, h: int, d: int, kv: int)
    ensures var t := n * b;
      (2 * t * hid * int_ + 2 * t * hid * int_ + t * int_ + 2 * t * int_ * hid) * l
      + (2 * t * hid * (h * d) + 2 * t * hid * (kv * d) + 2 * t * hid * (kv * d) + 2 * t * (h * d) * hid) * l
      == (b * (6 * hid * int_ + int_ + 4 * hid * h * d + 4 * hid * kv * d) * l) * n
  {
  }

  lemma FlopsLinear(m: ModelProfile, n: nat, batch: nat, c: nat)
    requires m.Valid()
    ensures PrefillFlops(m, n, batch, c) == PerPair(m, batch) * PairSum(c, n) + PerToken(m, batch) * n
    ensures DecodeFlops(m, c, batch) == PerPair(m, batch) * c + PerToken(m, batch)
  {
    PairsIsSum(c, n);
    AttentionLinear(batch, m.Heads(), m.HeadDim(), m.layers, Pairs(c, n));
    AttentionLinear(batch, m.Heads(), m.HeadDim(), m.layers, c);
    TokensLinear(batch, n, m.hidden, m.intermediate, m.layers, m.Heads(), m.HeadDim(), m.kvHeads);
    TokensLinear(batch, 1, m.hidden, m.intermediate, m.layers, m.Heads(), m.HeadDim(), m.kvHeads);
  }

  lemma BytesLinear(m: ModelProfile, n: nat, batch: nat, c: nat)
    requires m.Valid()
    ensures PrefillBytes(m, n, batch, c)
         == m.weightBytes + KvPerToken(m, batch) * (c + n) + ActivationPerToken(m, batch) * n
    ensures DecodeBytes(m, c, batch) == m.weightBytes + KvPerToken(m, batch) * (c + 1)
  {
  }
}
