/** Mock GPU memory: filling new tensors from a random pool, and moving token ranges in and out
(src/kvbench/kv/mock_gpu.py).  A tensor is laid out [2, layers, tokens, hidden]. */
module MockGpu {
  import opened Wrappers
  import opened Arith
  import opened Tokens

  // ---------------------------------------------------------------- the fill loop

  /** Bytes [pos, pos + len) of the tensor are bytes [offset, offset + len) of the pool. */
  datatype Slice = Slice(pos: nat, offset: nat, len: nat)

  /** What the generator returns, one draw a byte being more than enough: positions in the pool, as
      `randint(0, pool_size)` guarantees. */
  predicate DrawsFit(draws: seq<nat>, poolSize: nat, needed: nat)
  {
    |draws| >= needed && forall k {:trigger draws[k]} | 0 <= k < |draws| :: draws[k] < poolSize
  }

  /** The slices that fill `remaining` bytes from `pos` on, starting with draw k. */
  ghost function Slices(draws: seq<nat>, poolSize: nat, k: nat, pos: nat, remaining: nat): seq<Slice>
    requires DrawsFit(draws, poolSize, k + remaining)
    decreases remaining
  {
    if remaining == 0 then []
    else
      var offset := draws[k];
      var len := Min(remaining, poolSize - offset);
      [Slice(pos, offset, len)] + Slices(draws, poolSize, k + 1, pos + len, remaining - len)
  }

  /** Slices follow each other from pos to end; each but the last reads on to the end of the pool. */
  ghost predicate Contiguous(slices: seq<Slice>, poolSize: nat, pos: nat, end: nat)
  {
    if slices == [] then pos == end
    else
      var s := slices[0];
      && s.pos == pos && s.len >= 1 && s.offset + s.len <= poolSize && (|slices| > 1 ==> s.offset + s.len == poolSize)
      && Contiguous(slices[1..], poolSize, pos + s.len, end)
  }

  lemma {:induction false} SlicesContiguous(draws: seq<nat>, poolSize: nat, k: nat, pos: nat, remaining: nat)
    requires DrawsFit(draws, poolSize, k + remaining)
    ensures Contiguous(Slices(draws, poolSize, k, pos, remaining), poolSize, pos, pos + remaining)
    ensures var slices := Slices(draws, poolSize, k, pos, remaining);
      |slices| <= remaining && forall i {:trigger slices[i]} | 0 <= i < |slices| :: slices[i].offset == draws[k + i]
    decreases remaining
  {
    if remaining > 0 {
      var len := Min(remaining, poolSize - draws[k]);
      SlicesContiguous(draws, poolSize, k + 1, pos + len, remaining - len);
      var rest := Slices(draws, poolSize, k + 1, pos + len, remaining - len);
      assert Slices(draws, poolSize, k, pos, remaining)[1..] == rest;
    }
  }

  predicate Holds(s: Slice, b: nat) { s.pos <= b < s.pos + s.len }

  /** Slice i, and no other, holds byte b. */
  predicate OnlyHolder(slices: seq<Slice>, b: nat, i: nat)
  {
    i < |slices| && forall j {:trigger slices[j]} | 0 <= j < |slices| :: Holds(slices[j], b) <==> j == i
  }

  /** Every byte of the tensor is written by exactly one slice, whatever offsets are drawn. */
  lemma EveryByteOnce(draws: seq<nat>, poolSize: nat, n: nat, b: nat) returns (i: nat)
    requires DrawsFit(draws, poolSize, n) && b < n
    ensures OnlyHolder(Slices(draws, poolSize, 0, 0, n), b, i)
  {
    SlicesContiguous(draws, poolSize, 0, 0, n);
    i := OneHolds(Slices(draws, poolSize, 0, 0, n), poolSize, 0, n, b);
  }

  lemma {:induction false} OneHolds(slices: seq<Slice>, poolSize: nat, pos: nat, end: nat, b: nat) returns (i: nat)
    requires Contiguous(slices, poolSize, pos, end) && pos <= b < end
    ensures OnlyHolder(slices, b, i)
    decreases |slices|
  {
    var first, rest := slices[0], slices[1..];
    if b < first.pos + first.len {
      i := 0;
      StartsAfter(rest, poolSize, pos + first.len, end);
      forall j {:trigger slices[j]} | 0 <= j < |slices| ensures Holds(slices[j], b) <==> j == 0 {
        if j > 0 { assert slices[j] == rest[j - 1]; }
      }
    } else {
      var k := OneHolds(rest, poolSize, first.pos + first.len, end, b);
      i := k + 1;
      forall j {:trigger slices[j]} | 0 <= j < |slices| ensures Holds(slices[j], b) <==> j == i {
        if j > 0 { assert slices[j] == rest[j - 1]; }
      }
    }
  }

  lemma {:induction false} StartsAfter(slices: seq<Slice>, poolSize: nat, pos: nat, end: nat)
    requires Contiguous(slices, poolSize, pos, end)
    ensures forall j {:trigger slices[j]} | 0 <= j < |slices| :: slices[j].pos >= pos
    decreases |slices|
  {
    if slices != [] {
      StartsAfter(slices[1..], poolSize, pos + slices[0].len, end);
      forall j {:trigger slices[j]} | 0 <= j < |slices| ensures slices[j].pos >= pos {
        if j > 0 { assert slices[j] == slices[1..][j - 1]; }
      }
    }
  }

  /** What the drawn slices put into the tensor. */
  ghost function Filled(draws: seq<nat>, pool: seq<Byte>, k: nat, remaining: nat): (bytes: seq<Byte>)
    requires DrawsFit(draws, |pool|, k + remaining)
    ensures |bytes| == remaining
    decreases remaining
  {
    if remaining == 0 then []
    else
      var offset := draws[k];
      var len := Min(remaining, |pool| - offset);
      pool[offset..offset + len] + Filled(draws, pool, k + 1, remaining - len)
  }

  /** The bytes of a tensor filled from pos on agree with the pool, slice by slice. */
  ghost predicate Copied(slices: seq<Slice>, bytes: seq<Byte>, pool: seq<Byte>)
  {
    forall i {:trigger slices[i]} | 0 <= i < |slices| ::
      && slices[i].pos + slices[i].len <= |bytes| && slices[i].offset + slices[i].len <= |pool|
      && bytes[slices[i].pos..slices[i].pos + slices[i].len] == pool[slices[i].offset..slices[i].offset + slices[i].len]
  }

  /** Each slice of the filled tensor equals its contiguous slice of the pool. */
  lemma {:induction false} FilledBySlices(draws: seq<nat>, pool: seq<Byte>, k: nat, head: seq<Byte>, remaining: nat)
    requires DrawsFit(draws, |pool|, k + remaining)
    ensures Copied(Slices(draws, |pool|, k, |head|, remaining), head + Filled(draws, pool, k, remaining), pool)
    decreases remaining
  {
    if remaining > 0 {
      var offset := draws[k];
      var len := Min(remaining, |pool| - offset);
      var piece, rest := pool[offset..offset + len], Filled(draws, pool, k + 1, remaining - len);
      FilledBySlices(draws, pool, k + 1, head + piece, remaining - len);
      assert head + Filled(draws, pool, k, remaining) == (head + piece) + rest;
      var tail := Slices(draws, |pool|, k + 1, |head| + len, remaining - len);
      CopiedCons(Slice(|head|, offset, len), tail, head, piece, rest, pool);
    }
  }

  lemma CopiedCons(s: Slice, tail: seq<Slice>, head: seq<Byte>, piece: seq<Byte>, rest: seq<Byte>, pool: seq<Byte>)
    requires s.pos == |head| && s.offset + s.len <= |pool| && piece == pool[s.offset..s.offset + s.len]
    requires Copied(tail, (head + piece) + rest, pool)
    ensures Copied([s] + tail, (head + piece) + rest, pool)
  {
  }

  /** `new_kv_tensor`: a fresh tensor, filled from the pool when there is one. */
  method NewKvTensor(bytes: nat, pool: Option<seq<Byte>>, draws: seq<nat>) returns (flat: array<Byte>)
    requires pool.Some? ==> DrawsFit(draws, |pool.value|, bytes)
    ensures fresh(flat) && flat.Length == bytes
    ensures pool.Some? ==> flat[..] == Filled(draws, pool.value, 0, bytes)
  {
    flat := new Byte[bytes];
    if pool.Some? {
      Fill(flat, pool.value, draws);
    }
  }

  /** One turn of the loop. */
  method WriteSlice(flat: array<Byte>, pos: nat, remaining: nat, pool: seq<Byte>, draws: seq<nat>, k: nat,
                    ghost want: seq<Byte>)
    returns (length: nat)
    requires pos + remaining == flat.Length && remaining > 0 && DrawsFit(draws, |pool|, k + remaining)
    requires FilledSoFar(flat[..pos], draws, pool, k, remaining, want)
    modifies flat
    ensures 1 <= length <= remaining && FilledSoFar(flat[..pos + length], draws, pool, k + 1, remaining - length, want)
  {
    var offset := draws[k];
    length := Min(remaining, |pool| - offset);
    FilledNext(draws, pool, k, remaining, flat[..pos], want);
    CopySlice(flat, pos, pool, offset, length);
  }

  method Fill(flat: array<Byte>, pool: seq<Byte>, draws: seq<nat>)
    requires DrawsFit(draws, |pool|, flat.Length)
    modifies flat
    ensures flat[..] == Filled(draws, pool, 0, flat.Length)
  {
    ghost var want := Filled(draws, pool, 0, flat.Length);
    var pos, remaining, k := 0, flat.Length, 0;
    while remaining > 0
      invariant 0 <= k <= pos && 0 <= remaining && pos + remaining == flat.Length
      invariant FilledSoFar(flat[..pos], draws, pool, k, remaining, want)
    {
      var length := WriteSlice(flat, pos, remaining, pool, draws, k, want);
      pos := pos + length;
      remaining := remaining - length;
      k := k + 1;
    }
    assert flat[..pos] + [] == flat[..];
  }

  /** `flat[pos : pos + length] = pool[offset : offset + length]`. */
  method CopySlice(flat: array<Byte>, pos: nat, pool: seq<Byte>, offset: nat, length: nat)
    requires pos + length <= flat.Length && offset + length <= |pool|
    modifies flat
    ensures flat[..pos + length] == old(flat[..pos]) + pool[offset..offset + length]
    ensures flat[pos + length..] == old(flat[pos + length..])
  {
    forall i | pos <= i < pos + length {
      flat[i] := pool[offset + i - pos];
    }
  }

  /** The bytes written, and those still to come, make up what is wanted. */
  ghost predicate FilledSoFar(written: seq<Byte>, draws: seq<nat>, pool: seq<Byte>, k: nat, remaining: nat,
                              want: seq<Byte>)
    requires DrawsFit(draws, |pool|, k + remaining)
  {
    written + Filled(draws, pool, k, remaining) == want
  }

  lemma FilledNext(draws: seq<nat>, pool: seq<Byte>, k: nat, remaining: nat, written: seq<Byte>, want: seq<Byte>)
    requires DrawsFit(draws, |pool|, k + remaining) && remaining > 0
    requires FilledSoFar(written, draws, pool, k, remaining, want)
    ensures var len := Min(remaining, |pool| - draws[k]);
      FilledSoFar(written + pool[draws[k]..draws[k] + len], draws, pool, k + 1, remaining - len, want)
  {
  }

  // ---------------------------------------------------------------- moving token ranges

  /** A token's vector in a plane (K or V) and layer. */
  function Vector<T>(t: array4<T>, a: nat, l: nat, c: nat): (v: seq<T>)
    requires a < t.Length0 && l < t.Length1 && c < t.Length2
    reads t
    ensures |v| == t.Length3
  {
    seq(t.Length3, d requires 0 <= d < t.Length3 reads t => t[a, l, c, d])
  }

  /** The vectors of all tokens. */
  function Row<T>(t: array4<T>, a: nat, l: nat): (r: seq<seq<T>>)
    requires a < t.Length0 && l < t.Length1
    reads t
    ensures |r| == t.Length2 && forall c {:trigger r[c]} | 0 <= c < |r| :: r[c] == Vector(t, a, l, c)
  {
    seq(t.Length2, c requires 0 <= c < t.Length2 reads t => Vector(t, a, l, c))
  }

  /** Where a bound of a slice of n tokens lies: a negative one counts from the end, and both are cut to [0, n]. */
  function Bound(at: int, n: nat): (b: nat)
    ensures b <= n && (0 <= at <= n ==> b == at)
  {
    if at < 0 then Max(0, at + n) else Min(at, n)
  }

  /** Where the slice start:end begins and ends. */
  function Lo(start: int, n: nat): (lo: nat)
    ensures lo <= n && (0 <= start <= n ==> lo == start)
  {
    Bound(start, n)
  }

  function Hi(start: int, end: int, n: nat): (hi: nat)
    ensures Lo(start, n) <= hi <= n
  {
    Max(Bound(start, n), Bound(end, n))
  }

  function Width(start: int, end: int, n: nat): nat { Hi(start, end, n) - Lo(start, n) }

  /** A bound from 0 to n stands for itself, one from -n to -1 for the place n further on; others are cut. */
  lemma BoundsAre(start: int, end: int, n: nat)
    ensures 0 <= start <= n ==> Lo(start, n) == start
    ensures start < 0 <= start + n ==> Lo(start, n) == start + n
    ensures start > n ==> Lo(start, n) == n
    ensures start + n < 0 ==> Lo(start, n) == 0
    ensures Hi(start, end, n) == Max(Lo(start, n), Lo(end, n))
  {
  }

  /** `row[start:end]`. */
  function Sliced<V>(row: seq<V>, start: int, end: int): seq<V> { row[Lo(start, |row|)..Hi(start, end, |row|)] }

  function Paste<V>(row: seq<V>, start: int, piece: seq<V>): (r: seq<V>)
    requires Lo(start, |row|) + |piece| <= |row|
    ensures |r| == |row|
  {
    var lo := Lo(start, |row|);
    row[..lo] + piece + row[lo + |piece|..]
  }

  /** A dimension of size m is broadcast to n. */
  predicate Spreads(m: nat, n: nat) { m == n || m == 1 }

  /** The position read for position i of n. */
  function At(m: nat, n: nat, i: nat): (j: nat)
    requires Spreads(m, n) && i < n
    ensures j < m
  {
    if m == 1 then 0 else i
  }

  /** A token's vector broadcast to d values. */
  function Spread<T>(t: array4<T>, a: nat, l: nat, c: nat, d: nat): (v: seq<T>)
    requires a < t.Length0 && l < t.Length1 && c < t.Length2 && Spreads(t.Length3, d)
    reads t
    ensures |v| == d && (d == t.Length3 ==> v == Vector(t, a, l, c))
  {
    seq(d, k requires 0 <= k < d reads t => t[a, l, c, At(t.Length3, d, k)])
  }

  /** Row (a, l) of t[:, :, start:end, :], broadcast to n tokens of d values. */
  function SpreadRow<T>(t: array4<T>, start: int, end: int, a: nat, l: nat, n: nat, d: nat): (r: seq<seq<T>>)
    requires a < t.Length0 && l < t.Length1
    requires Spreads(Width(start, end, t.Length2), n) && Spreads(t.Length3, d)
    reads t
    ensures |r| == n
    ensures var lo, w := Lo(start, t.Length2), Width(start, end, t.Length2);
      forall c {:trigger r[c]} | 0 <= c < n :: r[c] == Spread(t, a, l, lo + At(w, n, c), d)
  {
    var lo, w := Lo(start, t.Length2), Width(start, end, t.Length2);
    seq(n, c requires 0 <= c < n reads t => Spread(t, a, l, lo + At(w, n, c), d))
  }

  /** Without broadcasting that is the slice of the row. */
  lemma SpreadRowIs<T>(t: array4<T>, start: int, end: int, a: nat, l: nat)
    requires a < t.Length0 && l < t.Length1
    ensures SpreadRow(t, start, end, a, l, Width(start, end, t.Length2), t.Length3) == Sliced(Row(t, a, l), start, end)
  {
    var r, want := SpreadRow(t, start, end, a, l, Width(start, end, t.Length2), t.Length3),
                   Sliced(Row(t, a, l), start, end);
    forall c | 0 <= c < |r| ensures r[c] == want[c] {}
  }

  /** The memory object can be broadcast to tokens start:end of the GPU tensor. */
  predicate Writable<T>(piece: array4<T>, start: int, end: int, dest: array4<T>)
  {
    && Spreads(piece.Length0, dest.Length0) && Spreads(piece.Length1, dest.Length1)
    && Spreads(piece.Length2, Width(start, end, dest.Length2)) && Spreads(piece.Length3, dest.Length3)
  }

  /** What it writes at token c of the range, in row (a, l). */
  function WrittenVector<T>(piece: array4<T>, start: int, end: int, dest: array4<T>, a: nat, l: nat, c: nat)
    : (v: seq<T>)
    requires Writable(piece, start, end, dest) && a < dest.Length0 && l < dest.Length1
    requires c < Width(start, end, dest.Length2)
    reads piece
    ensures |v| == dest.Length3
  {
    Spread(piece, At(piece.Length0, dest.Length0, a), At(piece.Length1, dest.Length1, l),
           At(piece.Length2, Width(start, end, dest.Length2), c), dest.Length3)
  }

  /** What it writes into row (a, l). */
  function Written<T>(piece: array4<T>, start: int, end: int, dest: array4<T>, a: nat, l: nat): (r: seq<seq<T>>)
    requires Writable(piece, start, end, dest) && a < dest.Length0 && l < dest.Length1
    reads piece
    ensures |r| == Width(start, end, dest.Length2)
    ensures forall c {:trigger r[c]} | 0 <= c < |r| :: r[c] == WrittenVector(piece, start, end, dest, a, l, c)
  {
    SpreadRow(piece, 0, piece.Length2, At(piece.Length0, dest.Length0, a), At(piece.Length1, dest.Length1, l),
              Width(start, end, dest.Length2), dest.Length3)
  }

  lemma PasteIs<V>(now: seq<V>, before: seq<V>, start: int, piece: seq<V>)
    requires |now| == |before| && Lo(start, |before|) + |piece| <= |before|
    requires var lo := Lo(start, |before|);
      forall c | 0 <= c < |now| :: now[c] == if lo <= c < lo + |piece| then piece[c - lo] else before[c]
    ensures now == Paste(before, start, piece)
  {
  }

  /** `kv_dest[:, :, start:end, :] = memory_obj.tensor`. */
  method ToGpu<T>(piece: array4<T>, start: int, end: int, dest: array4<T>)
    requires Writable(piece, start, end, dest) && piece != dest
    modifies dest
    ensures forall a: nat, l: nat {:trigger Row(dest, a, l)} | a < dest.Length0 && l < dest.Length1 ::
      Row(dest, a, l) == Paste(old(Row(dest, a, l)), start, Written(piece, start, end, dest, a, l))
    ensures var lo, hi := Lo(start, dest.Length2), Hi(start, end, dest.Length2);
      forall a: nat, l: nat, c: nat, d: nat {:trigger dest[a, l, c, d]}
        | a < dest.Length0 && l < dest.Length1 && c < dest.Length2 && d < dest.Length3 ::
        dest[a, l, c, d]
        == if lo <= c < hi
           then piece[if piece.Length0 == 1 then 0 else a, if piece.Length1 == 1 then 0 else l,
                      if piece.Length2 == 1 then 0 else c - lo, if piece.Length3 == 1 then 0 else d]
           else old(dest[a, l, c, d])
  {
    hide Paste, Vector, WrittenVector, Written, Row, Writable, Lo, Hi;
    WriteRange(piece, start, end, dest);
    forall a: nat, l: nat {:trigger Row(dest, a, l)} | a < dest.Length0 && l < dest.Length1
      ensures Row(dest, a, l) == Paste(old(Row(dest, a, l)), start, Written(piece, start, end, dest, a, l))
    {
      PasteIs(Row(dest, a, l), old(Row(dest, a, l)), start, Written(piece, start, end, dest, a, l));
    }
  }

  /** The assignment, vector by vector and element by element. */
  method WriteRange<T>(piece: array4<T>, start: int, end: int, dest: array4<T>)
    requires Writable(piece, start, end, dest) && piece != dest
    modifies dest
    ensures var lo, hi := Lo(start, dest.Length2), Hi(start, end, dest.Length2);
      forall a: nat, l: nat, c: nat, d: nat {:trigger dest[a, l, c, d]}
        | a < dest.Length0 && l < dest.Length1 && c < dest.Length2 && d < dest.Length3 ::
        dest[a, l, c, d]
        == if lo <= c < hi
           then piece[if piece.Length0 == 1 then 0 else a, if piece.Length1 == 1 then 0 else l,
                      if piece.Length2 == 1 then 0 else c - lo, if piece.Length3 == 1 then 0 else d]
           else old(dest[a, l, c, d])
    ensures var lo, hi := Lo(start, dest.Length2), Hi(start, end, dest.Length2);
      forall a: nat, l: nat, c: nat {:trigger Vector(dest, a, l, c)}
        | a < dest.Length0 && l < dest.Length1 && c < dest.Length2 ::
        Vector(dest, a, l, c)
        == if lo <= c < hi then WrittenVector(piece, start, end, dest, a, l, c - lo) else old(Vector(dest, a, l, c))
  {
    var lo, hi := Lo(start, dest.Length2), Hi(start, end, dest.Length2);
    forall a, l, c, d
      | 0 <= a < dest.Length0 && 0 <= l < dest.Length1 && lo <= c < hi && 0 <= d < dest.Length3
    {
      dest[a, l, c, d] := piece[At(piece.Length0, dest.Length0, a), At(piece.Length1, dest.Length1, l),
                                At(piece.Length2, hi - lo, c - lo), At(piece.Length3, dest.Length3, d)];
    }
  }

  /** Tokens start:end of the GPU tensor can be broadcast to the memory object. */
  predicate Readable<T>(piece: array4<T>, start: int, end: int, source: array4<T>)
  {
    && Spreads(source.Length0, piece.Length0) && Spreads(source.Length1, piece.Length1)
    && Spreads(Width(start, end, source.Length2), piece.Length2) && Spreads(source.Length3, piece.Length3)
  }

  /** What it reads at token c of the memory object, in row (a, l). */
  function FetchedVector<T>(piece: array4<T>, start: int, end: int, source: array4<T>, a: nat, l: nat, c: nat)
    : (v: seq<T>)
    requires Readable(piece, start, end, source) && a < piece.Length0 && l < piece.Length1 && c < piece.Length2
    reads source
    ensures |v| == piece.Length3
  {
    Spread(source, At(source.Length0, piece.Length0, a), At(source.Length1, piece.Length1, l),
           Lo(start, source.Length2) + At(Width(start, end, source.Length2), piece.Length2, c), piece.Length3)
  }

  /** What it reads into row (a, l). */
  function Fetched<T>(piece: array4<T>, start: int, end: int, source: array4<T>, a: nat, l: nat): (r: seq<seq<T>>)
    requires Readable(piece, start, end, source) && a < piece.Length0 && l < piece.Length1
    reads source
    ensures |r| == piece.Length2
    ensures forall c {:trigger r[c]} | 0 <= c < |r| :: r[c] == FetchedVector(piece, start, end, source, a, l, c)
  {
    SpreadRow(source, start, end, At(source.Length0, piece.Length0, a), At(source.Length1, piece.Length1, l),
              piece.Length2, piece.Length3)
  }

  /** `memory_obj.tensor.copy_(kv_source[:, :, start:end, :])`. */
  method FromGpu<T>(piece: array4<T>, start: int, end: int, source: array4<T>)
    requires Readable(piece, start, end, source) && piece != source
    modifies piece
    ensures forall a: nat, l: nat {:trigger Row(piece, a, l)} | a < piece.Length0 && l < piece.Length1 ::
      Row(piece, a, l) == Fetched(piece, start, end, source, a, l)
    ensures var lo, hi := Lo(start, source.Length2), Hi(start, end, source.Length2);
      forall a: nat, l: nat, c: nat, d: nat {:trigger piece[a, l, c, d]}
        | a < piece.Length0 && l < piece.Length1 && c < piece.Length2 && d < piece.Length3 ::
        piece[a, l, c, d]
        == source[if source.Length0 == 1 then 0 else a, if source.Length1 == 1 then 0 else l,
                  if hi - lo == 1 then lo else lo + c, if source.Length3 == 1 then 0 else d]
  {
    hide Vector, FetchedVector, Fetched, Row, Readable;
    ReadRange(piece, start, end, source);
    forall a: nat, l: nat {:trigger Row(piece, a, l)} | a < piece.Length0 && l < piece.Length1
      ensures Row(piece, a, l) == Fetched(piece, start, end, source, a, l)
    {
      var now, want := Row(piece, a, l), Fetched(piece, start, end, source, a, l);
      forall c | 0 <= c < |now| ensures now[c] == want[c] {}
    }
  }

  /** The copy, vector by vector and element by element. */
  method ReadRange<T>(piece: array4<T>, start: int, end: int, source: array4<T>)
    requires Readable(piece, start, end, source) && piece != source
    modifies piece
    ensures var lo, hi := Lo(start, source.Length2), Hi(start, end, source.Length2);
      forall a: nat, l: nat, c: nat, d: nat {:trigger piece[a, l, c, d]}
        | a < piece.Length0 && l < piece.Length1 && c < piece.Length2 && d < piece.Length3 ::
        piece[a, l, c, d]
        == source[if source.Length0 == 1 then 0 else a, if source.Length1 == 1 then 0 else l,
                  if hi - lo == 1 then lo else lo + c, if source.Length3 == 1 then 0 else d]
    ensures forall a: nat, l: nat, c: nat {:trigger Vector(piece, a, l, c)}
      | a < piece.Length0 && l < piece.Length1 && c < piece.Length2 ::
      Vector(piece, a, l, c) == FetchedVector(piece, start, end, source, a, l, c)
  {
    var lo, w := Lo(start, source.Length2), Width(start, end, source.Length2);
    forall a, l, c, d
      | 0 <= a < piece.Length0 && 0 <= l < piece.Length1 && 0 <= c < piece.Length2 && 0 <= d < piece.Length3
    {
      piece[a, l, c, d] := source[At(source.Length0, piece.Length0, a), At(source.Length1, piece.Length1, l),
                                  lo + At(w, piece.Length2, c), At(source.Length3, piece.Length3, d)];
    }
  }

  // ---------------------------------------------------------------- batches

  /** What the memory objects receive of one row. */
  function Cut<V>(row: seq<V>, starts: seq<int>, ends: seq<int>): (pieces: seq<seq<V>>)
    requires |starts| == |ends|
    ensures |pieces| == |starts|
    ensures forall k {:trigger pieces[k]} | 0 <= k < |starts| :: pieces[k] == Sliced(row, starts[k], ends[k])
  {
    seq(|starts|, k requires 0 <= k < |starts| => Sliced(row, starts[k], ends[k]))
  }

  predicate PiecesFit<V>(n: nat, starts: seq<int>, pieces: seq<seq<V>>)
  {
    |pieces| <= |starts| && forall k {:trigger pieces[k]} | 0 <= k < |pieces| :: Lo(starts[k], n) + |pieces[k]| <= n
  }

  /** One row of the destination after the pieces are written in order. */
  function PasteAll<V>(row: seq<V>, starts: seq<int>, pieces: seq<seq<V>>): (r: seq<V>)
    requires PiecesFit(|row|, starts, pieces)
    ensures |r| == |row|
  {
    if pieces == [] then row
    else
      var n := |pieces| - 1;
      Paste(PasteAll(row, starts, pieces[..n]), starts[n], pieces[n])
  }

  /** Some range of a row of n tokens holds token c. */
  predicate Covered(starts: seq<int>, ends: seq<int>, n: nat, c: nat)
    requires |starts| == |ends|
  {
    exists k {:trigger starts[k]} :: 0 <= k < |starts| && Lo(starts[k], n) <= c < Hi(starts[k], ends[k], n)
  }

  lemma CutPrefix<V>(row: seq<V>, starts: seq<int>, ends: seq<int>, n: nat)
    requires |starts| == |ends| && n <= |starts|
    ensures Cut(row, starts[..n], ends[..n]) == Cut(row, starts, ends)[..n]
  {
  }

  lemma {:induction false} PasteAllStarts<V>(row: seq<V>, starts: seq<int>, pieces: seq<seq<V>>, n: nat)
    requires PiecesFit(|row|, starts, pieces) && |pieces| <= n <= |starts|
    ensures PiecesFit(|row|, starts[..n], pieces) && PasteAll(row, starts[..n], pieces) == PasteAll(row, starts, pieces)
    decreases |pieces|
  {
    if pieces != [] { PasteAllStarts(row, starts, pieces[..|pieces| - 1], n); }
  }

  lemma CoveredNext(starts: seq<int>, ends: seq<int>, n: nat, c: nat)
    requires |starts| == |ends| > 0
    ensures var k := |starts| - 1;
      Covered(starts, ends, n, c)
      <==> Covered(starts[..k], ends[..k], n, c) || Lo(starts[k], n) <= c < Hi(starts[k], ends[k], n)
  {
  }

  /** Pasting back a slice of row. */
  lemma PasteSliceAt<V>(base: seq<V>, row: seq<V>, start: int, end: int, c: nat)
    requires |base| == |row| && c < |row|
    ensures Lo(start, |base|) + |Sliced(row, start, end)| <= |base|
    ensures Paste(base, start, Sliced(row, start, end))[c]
         == if Lo(start, |row|) <= c < Hi(start, end, |row|) then row[c] else base[c]
  {
  }

  lemma PasteAllCut<V>(row: seq<V>, dest: seq<V>, starts: seq<int>, ends: seq<int>, n: nat)
    requires |row| == |dest| && |starts| == |ends| == n + 1
    requires PiecesFit(|dest|, starts[..n], Cut(row, starts[..n], ends[..n]))
    ensures PiecesFit(|dest|, starts, Cut(row, starts, ends))
    ensures PasteAll(dest, starts, Cut(row, starts, ends))
         == Paste(PasteAll(dest, starts[..n], Cut(row, starts[..n], ends[..n])), starts[n],
                  Sliced(row, starts[n], ends[n]))
  {
    CutPrefix(row, starts, ends, n);
    CutFits(row, dest, starts, ends);
    PasteAllStarts(dest, starts, Cut(row, starts, ends)[..n], n);
  }

  lemma CutFits<V>(row: seq<V>, dest: seq<V>, starts: seq<int>, ends: seq<int>)
    requires |row| == |dest| && |starts| == |ends|
    ensures PiecesFit(|dest|, starts, Cut(row, starts, ends))
  {
  }

  /** A token comes back from the source if some range covers it, and is the destination's own otherwise; overlapping
      ranges agree. */
  lemma {:induction false} TransferAt<V>(row: seq<V>, dest: seq<V>, starts: seq<int>, ends: seq<int>, c: nat)
    requires |row| == |dest| && |starts| == |ends| && c < |row|
    ensures PiecesFit(|dest|, starts, Cut(row, starts, ends))
    ensures PasteAll(dest, starts, Cut(row, starts, ends))[c]
         == if Covered(starts, ends, |row|, c) then row[c] else dest[c]
    decreases |starts|
  {
    CutFits(row, dest, starts, ends);
    if starts != [] {
      var n := |starts| - 1;
      TransferAt(row, dest, starts[..n], ends[..n], c);
      PasteAllCut(row, dest, starts, ends, n);
      CoveredNext(starts, ends, |row|, c);
      PasteSliceAt(PasteAll(dest, starts[..n], Cut(row, starts[..n], ends[..n])), row, starts[n], ends[n], c);
    }
  }

  /** Moving a tensor out and back reproduces it exactly when the tokens no range covers already agree. */
  lemma RoundTripIff<V>(row: seq<V>, dest: seq<V>, starts: seq<int>, ends: seq<int>)
    requires |row| == |dest| && |starts| == |ends|
    ensures PiecesFit(|dest|, starts, Cut(row, starts, ends))
    ensures PasteAll(dest, starts, Cut(row, starts, ends)) == row
       <==> (forall c | 0 <= c < |row| && !Covered(starts, ends, |row|, c) :: dest[c] == row[c])
  {
    assert PiecesFit(|dest|, starts, Cut(row, starts, ends));
    forall c | 0 <= c < |row|
      ensures PasteAll(dest, starts, Cut(row, starts, ends))[c]
         == if Covered(starts, ends, |row|, c) then row[c] else dest[c]
    {
      TransferAt(row, dest, starts, ends, c);
    }
  }

  /** Ranges that follow each other from 0 to n. */
  predicate Tiles(starts: seq<int>, ends: seq<int>, n: nat)
  {
    && |starts| == |ends|
    && if starts == [] then n == 0
       else
         var k := |starts| - 1;
         0 <= starts[k] <= ends[k] == n && Tiles(starts[..k], ends[..k], starts[k])
  }

  lemma {:induction false} TilesCover(starts: seq<int>, ends: seq<int>, m: nat, n: nat)
    requires Tiles(starts, ends, m) && m <= n
    ensures forall c: nat | c < m :: Covered(starts, ends, n, c)
    decreases |starts|
  {
    if starts != [] {
      var k := |starts| - 1;
      TilesCover(starts[..k], ends[..k], starts[k], n);
      forall c: nat | c < m
        ensures Covered(starts, ends, n, c)
      {
        CoveredNext(starts, ends, n, c);
      }
    }
  }

  /** Ranges that tile the tokens lose nothing, whatever the destination held. */
  lemma TilingRoundTrips<V>(row: seq<V>, dest: seq<V>, starts: seq<int>, ends: seq<int>)
    requires |row| == |dest| && Tiles(starts, ends, |row|)
    ensures PiecesFit(|dest|, starts, Cut(row, starts, ends))
    ensures PasteAll(dest, starts, Cut(row, starts, ends)) == row
  {
    TilesCover(starts, ends, |row|, |row|);
    RoundTripIff(row, dest, starts, ends);
  }

  // ---------------------------------------------------------------- batches of tensors

  function Min3(a: nat, b: nat, c: nat): nat { Min(a, Min(b, c)) }

  /** The first n memory objects can take their ranges of the source, and are not the source. */
  predicate AllReadable<T>(pieces: seq<array4<T>>, starts: seq<int>, ends: seq<int>, n: nat, source: array4<T>)
  {
    && n <= |pieces| && n <= |starts| && n <= |ends|
    && (forall k {:trigger pieces[k]} | 0 <= k < |pieces| :: pieces[k] != source)
    && forall k {:trigger pieces[k]} | 0 <= k < n :: Readable(pieces[k], starts[k], ends[k], source)
  }

  predicate NotAgain<T>(pieces: seq<array4<T>>, k: nat, i: nat)
    requires i <= |pieces| && k < i
  {
    forall j {:trigger pieces[j]} | k < j < i :: pieces[j] != pieces[k]
  }

  /** After the first i of n ranges each memory object holds its range of the source; one listed twice, its last. */
  ghost predicate Loaded<T>(pieces: seq<array4<T>>, starts: seq<int>, ends: seq<int>, n: nat, i: nat, source: array4<T>)
    requires AllReadable(pieces, starts, ends, n, source) && i <= n
    reads pieces, source
  {
    forall k {:trigger pieces[k]} | 0 <= k < i && NotAgain(pieces, k, i) ::
      PieceLoaded(pieces[k], starts[k], ends[k], source)
  }

  ghost predicate PieceLoaded<T>(piece: array4<T>, start: int, end: int, source: array4<T>)
    requires Readable(piece, start, end, source)
    reads piece, source
  {
    forall a: nat, l: nat {:trigger Row(piece, a, l)} | a < piece.Length0 && l < piece.Length1 ::
      Row(piece, a, l) == Fetched(piece, start, end, source, a, l)
  }

  /** `zip(..., strict=True)` moves the common prefix and then complains if the lengths differ. */
  method BatchedFromGpu<T>(pieces: seq<array4<T>>, starts: seq<int>, ends: seq<int>,
                           source: array4<T>) returns (ok: bool)
    requires AllReadable(pieces, starts, ends, Min3(|pieces|, |starts|, |ends|), source)
    modifies pieces
    ensures ok <==> |pieces| == |starts| == |ends|
    ensures var n := Min3(|pieces|, |starts|, |ends|); Loaded(pieces, starts, ends, n, n, source)
  {
    var n := Min3(|pieces|, |starts|, |ends|);
    for i := 0 to n
      invariant Loaded(pieces, starts, ends, n, i, source)
    {
      LoadNext(pieces, starts, ends, n, i, source);
    }
    ok := |pieces| == |starts| && |starts| == |ends|;
  }

  method LoadNext<T>(pieces: seq<array4<T>>, starts: seq<int>, ends: seq<int>, n: nat, i: nat, source: array4<T>)
    requires AllReadable(pieces, starts, ends, n, source) && i < n && Loaded(pieces, starts, ends, n, i, source)
    modifies pieces[i]
    ensures Loaded(pieces, starts, ends, n, i + 1, source)
  {
    FromGpu(pieces[i], starts[i], ends[i], source);
    assert PieceLoaded(pieces[i], starts[i], ends[i], source);
    forall k {:trigger pieces[k]} | 0 <= k < i + 1 && NotAgain(pieces, k, i + 1)
      ensures PieceLoaded(pieces[k], starts[k], ends[k], source)
    {
      if k < i {
        assert pieces[i] != pieces[k] && NotAgain(pieces, k, i);
        assert old(PieceLoaded(pieces[k], starts[k], ends[k], source));
      }
    }
  }

  /** The first n memory objects can be written over their ranges of the destination, and are not the destination. */
  predicate AllWritable<T>(pieces: seq<array4<T>>, starts: seq<int>, ends: seq<int>, n: nat, dest: array4<T>)
  {
    && n <= |pieces| && n <= |starts| && n <= |ends|
    && (forall k {:trigger pieces[k]} | 0 <= k < |pieces| :: pieces[k] != dest)
    && forall k {:trigger pieces[k]} | 0 <= k < n :: Writable(pieces[k], starts[k], ends[k], dest)
  }

  /** What each of the first n memory objects writes into one row. */
  function WrittenRows<T>(pieces: seq<array4<T>>, starts: seq<int>, ends: seq<int>, n: nat, dest: array4<T>, a: nat,
                          l: nat): (rows: seq<seq<seq<T>>>)
    requires AllWritable(pieces, starts, ends, n, dest) && a < dest.Length0 && l < dest.Length1
    reads pieces
    ensures |rows| == n
    ensures forall k {:trigger rows[k]} | 0 <= k < n :: rows[k] == Written(pieces[k], starts[k], ends[k], dest, a, l)
  {
    seq(n, k requires 0 <= k < n && AllWritable(pieces, starts, ends, n, dest) reads pieces =>
      Written(pieces[k], starts[k], ends[k], dest, a, l))
  }

  /** A whole tensor, row by row. */
  ghost function Planes<T>(t: array4<T>): (planes: seq<seq<seq<seq<T>>>>)
    reads t
    ensures |planes| == t.Length0
    ensures forall a: nat {:trigger planes[a]} | a < t.Length0 :: |planes[a]| == t.Length1
    ensures forall a: nat, l: nat {:trigger planes[a][l]} {:trigger Row(t, a, l)} | a < t.Length0 && l < t.Length1 ::
      planes[a][l] == Row(t, a, l)
  {
    seq(t.Length0, a requires 0 <= a < t.Length0 reads t =>
      seq(t.Length1, l requires 0 <= l < t.Length1 reads t => Row(t, a, l)))
  }

  ghost predicate Framed<T>(dest: array4<T>, before: seq<seq<seq<seq<T>>>>)
  {
    |before| == dest.Length0 && forall a: nat {:trigger before[a]} | a < |before| :: |before[a]| == dest.Length1
  }

  /** dest is what it was, with the first i of n memory objects written over it in order. */
  ghost predicate Pasted<T>(dest: array4<T>, before: seq<seq<seq<seq<T>>>>, starts: seq<int>, ends: seq<int>,
                            pieces: seq<array4<T>>, n: nat, i: nat)
    requires i <= n && AllWritable(pieces, starts, ends, n, dest) && Framed(dest, before)
    reads dest, pieces
  {
    forall a: nat, l: nat {:trigger before[a][l]} | a < dest.Length0 && l < dest.Length1 ::
      RowPasted(Row(dest, a, l), before[a][l], starts, WrittenRows(pieces, starts, ends, i, dest, a, l))
  }

  lemma PastedNone<T>(dest: array4<T>, starts: seq<int>, ends: seq<int>, pieces: seq<array4<T>>, n: nat)
    requires AllWritable(pieces, starts, ends, n, dest)
    ensures Framed(dest, Planes(dest)) && Pasted(dest, Planes(dest), starts, ends, pieces, n, 0)
  {
  }

  ghost predicate RowPasted<V>(row: seq<V>, before: seq<V>, starts: seq<int>, pieces: seq<seq<V>>)
  {
    PiecesFit(|before|, starts, pieces) && row == PasteAll(before, starts, pieces)
  }

  lemma RowStep<V>(now: seq<V>, before: seq<V>, starts: seq<int>, pieces: seq<seq<V>>, piece: seq<V>)
    requires RowPasted(now, before, starts, pieces) && |pieces| < |starts|
    requires Lo(starts[|pieces|], |before|) + |piece| <= |before|
    ensures RowPasted(Paste(now, starts[|pieces|], piece), before, starts, pieces + [piece])
  {
  }

  lemma WrittenNext<T>(pieces: seq<array4<T>>, starts: seq<int>, ends: seq<int>, i: nat, n: nat, dest: array4<T>,
                       a: nat, l: nat)
    requires i < n && AllWritable(pieces, starts, ends, n, dest) && a < dest.Length0 && l < dest.Length1
    ensures WrittenRows(pieces, starts, ends, i + 1, dest, a, l)
         == WrittenRows(pieces, starts, ends, i, dest, a, l) + [Written(pieces[i], starts[i], ends[i], dest, a, l)]
  {
    hide Written, WrittenRows;
  }

  method PasteNext<T>(pieces: seq<array4<T>>, starts: seq<int>, ends: seq<int>, dest: array4<T>, n: nat, i: nat,
                      ghost before: seq<seq<seq<seq<T>>>>)
    requires i < n && AllWritable(pieces, starts, ends, n, dest) && Framed(dest, before)
    requires Pasted(dest, before, starts, ends, pieces, n, i)
    modifies dest
    ensures Pasted(dest, before, starts, ends, pieces, n, i + 1)
  {
    ToGpu(pieces[i], starts[i], ends[i], dest);
    forall a: nat, l: nat {:trigger before[a][l]} | a < dest.Length0 && l < dest.Length1
      ensures RowPasted(Row(dest, a, l), before[a][l], starts, WrittenRows(pieces, starts, ends, i + 1, dest, a, l))
    {
      var now, rows := old(Row(dest, a, l)), WrittenRows(pieces, starts, ends, i, dest, a, l);
      assert RowPasted(now, before[a][l], starts, old(WrittenRows(pieces, starts, ends, i, dest, a, l)));
      assert rows == old(WrittenRows(pieces, starts, ends, i, dest, a, l));
      RowStep(now, before[a][l], starts, rows, Written(pieces[i], starts[i], ends[i], dest, a, l));
      WrittenNext(pieces, starts, ends, i, n, dest, a, l);
    }
  }

  method BatchedToGpu<T>(pieces: seq<array4<T>>, starts: seq<int>, ends: seq<int>, dest: array4<T>) returns (ok: bool)
    requires AllWritable(pieces, starts, ends, Min3(|pieces|, |starts|, |ends|), dest)
    modifies dest
    ensures ok <==> |pieces| == |starts| == |ends|
    ensures Framed(dest, old(Planes(dest)))
    ensures var n := Min3(|pieces|, |starts|, |ends|); Pasted(dest, old(Planes(dest)), starts, ends, pieces, n, n)
  {
    var n := Min3(|pieces|, |starts|, |ends|);
    ghost var before := Planes(dest);
    PastedNone(dest, starts, ends, pieces, n);
    for i := 0 to n
      invariant Pasted(dest, before, starts, ends, pieces, n, i)
    {
      PasteNext(pieces, starts, ends, dest, n, i, before);
    }
    ok := |pieces| == |starts| && |starts| == |ends|;
  }

  // ---------------------------------------------------------------- out and back

  predicate SameFrame<T>(t: array4<T>, u: array4<T>)
  {
    t.Length0 == u.Length0 && t.Length1 == u.Length1 && t.Length3 == u.Length3
  }

  /** Different memory objects, each of the very shape of its range of the source. */
  predicate Shaped<T>(pieces: seq<array4<T>>, starts: seq<int>, ends: seq<int>, source: array4<T>)
  {
    && |pieces| == |starts| == |ends|
    && (forall k {:trigger pieces[k]} | 0 <= k < |pieces| ::
          && pieces[k] != source && SameFrame(pieces[k], source)
          && pieces[k].Length2 == Width(starts[k], ends[k], source.Length2))
    && forall j, k | 0 <= j < k < |pieces| :: pieces[j] != pieces[k]
  }

  /** Store and retrieve through memory objects: with ranges that tile the tokens, any destination ends up equal to
      the source. */
  method TransferRoundTrip<T>(pieces: seq<array4<T>>, starts: seq<int>, ends: seq<int>, source: array4<T>,
                              dest: array4<T>)
    requires Shaped(pieces, starts, ends, source) && Tiles(starts, ends, source.Length2)
    requires SameFrame(source, dest) && source.Length2 == dest.Length2 && source != dest && dest !in pieces
    modifies pieces, dest
    ensures forall a: nat, l: nat {:trigger Row(dest, a, l)} | a < dest.Length0 && l < dest.Length1 ::
      Row(dest, a, l) == old(Row(source, a, l))
  {
    var _ := BatchedFromGpu(pieces, starts, ends, source);
    ghost var before := Planes(dest);
    ghost var after := Planes(source);
    LoadedIsCut(pieces, starts, ends, source, dest);
    var _ := BatchedToGpu(pieces, starts, ends, dest);
    forall a: nat, l: nat {:trigger Row(dest, a, l)} | a < dest.Length0 && l < dest.Length1
      ensures Row(dest, a, l) == old(Row(source, a, l))
    {
      var row := old(Row(source, a, l));
      var rows := WrittenRows(pieces, starts, ends, |pieces|, dest, a, l);
      assert RowPasted(Row(dest, a, l), before[a][l], starts, rows);
      TilingRoundTrips(row, before[a][l], starts, ends);
      assert rows == Cut(row, starts, ends);
    }
  }

  lemma LoadedIsCut<T>(pieces: seq<array4<T>>, starts: seq<int>, ends: seq<int>, source: array4<T>, dest: array4<T>)
    requires Shaped(pieces, starts, ends, source) && SameFrame(source, dest) && source.Length2 == dest.Length2
    requires dest !in pieces && Loaded(pieces, starts, ends, |pieces|, |pieces|, source)
    ensures forall a: nat, l: nat {:trigger Row(source, a, l)} | a < dest.Length0 && l < dest.Length1 ::
      WrittenRows(pieces, starts, ends, |pieces|, dest, a, l) == Cut(Row(source, a, l), starts, ends)
  {
    forall a: nat, l: nat {:trigger Row(source, a, l)} | a < dest.Length0 && l < dest.Length1
      ensures WrittenRows(pieces, starts, ends, |pieces|, dest, a, l) == Cut(Row(source, a, l), starts, ends)
    {
      var rows, cut := WrittenRows(pieces, starts, ends, |pieces|, dest, a, l), Cut(Row(source, a, l), starts, ends);
      forall k {:trigger rows[k]} | 0 <= k < |pieces|
        ensures rows[k] == cut[k]
      {
        assert NotAgain(pieces, k, |pieces|) && PieceLoaded(pieces[k], starts[k], ends[k], source);
        SpreadRowIs(pieces[k], 0, pieces[k].Length2, a, l);
        SpreadRowIs(source, starts[k], ends[k], a, l);
        assert Row(pieces[k], a, l) == Fetched(pieces[k], starts[k], ends[k], source, a, l);
      }
    }
  }
}
