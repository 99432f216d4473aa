/** Cache keys: format@model@world_size@worker_id@layer_start-layer_end@hash@suffix
(src/kvbench/core/tokens.py, CacheKeyGenerator). */
module CacheKeys {
  import opened Wrappers
  import opened Arith
  import opened Text

  datatype Config = Config(modelName: string, worldSize: int)

  datatype CacheKey = CacheKey(format: string, model: string, worldSize: int, workerId: int,
                               layerStart: int, layerEnd: int, chunkHash: string, suffix: string)

  /** The ValueErrors of parse_key. */
  datatype KeyError = WrongComponents(found: nat) | BadLayerRange(range: string) | BadInteger

  const DEFAULT_FORMAT := "lmcache"

  function RangeText(first: int, last: int): string { IntText(first) + "-" + IntText(last) }

  function Components(k: CacheKey): (parts: seq<string>)
    ensures |parts| == 7
  {
    [k.format, k.model, IntText(k.worldSize), IntText(k.workerId), RangeText(k.layerStart, k.layerEnd), k.chunkHash,
     k.suffix]
  }

  function KeyText(k: CacheKey): string { Join(Components(k), '@') }

  /** What make_key's arguments stand for: no end layer means the start layer. */
  function KeyOf(c: Config, hash: string, worker: int, first: int, last: Option<int>, suffix: string): CacheKey
  {
    var last := if last.None? then first else last.value;
    CacheKey(DEFAULT_FORMAT, c.modelName, c.worldSize, worker, first, last, hash, suffix)
  }

  function MakeKey(c: Config, hash: string, worker: int, first: int, last: Option<int>, suffix: string): string
  {
    KeyText(KeyOf(c, hash, worker, first, last, suffix))
  }

  function ParseKey(key: string): Result<CacheKey, KeyError>
  {
    var parts := Split(key, '@');
    if |parts| != 7 then Err(WrongComponents(|parts|))
    else
      var layers := Split(parts[4], '-');
      if |layers| != 2 then Err(BadLayerRange(parts[4]))
      else
        match (ParseInt(parts[2]), ParseInt(parts[3]), ParseInt(layers[0]), ParseInt(layers[1]))
        case (Some(world), Some(worker), Some(first), Some(last)) =>
          Ok(CacheKey(parts[0], parts[1], world, worker, first, last, parts[5], parts[6]))
        case _ => Err(BadInteger)
  }

  // ---------------------------------------------------------------- round trip

  /** What a key must look like for its text to be read back. */
  predicate Readable(k: CacheKey)
  {
    && '@' !in k.format && '@' !in k.model && '@' !in k.chunkHash && '@' !in k.suffix
    && k.layerStart >= 0 && k.layerEnd >= 0
  }

  lemma RangeHasNoAt(first: int, last: int)
    ensures '@' !in RangeText(first, last)
  {
  }

  lemma ComponentsFree(k: CacheKey)
    ensures Free(Components(k), '@')
       <==> ('@' !in k.format && '@' !in k.model && '@' !in k.chunkHash && '@' !in k.suffix)
  {
    var parts := Components(k);
    IntTextChars(k.worldSize, '@');
    IntTextChars(k.workerId, '@');
    RangeHasNoAt(k.layerStart, k.layerEnd);
    assert parts[0] == k.format && parts[1] == k.model && parts[5] == k.chunkHash && parts[6] == k.suffix;
  }

  /** A layer range splits into its two numbers exactly when neither is negative. */
  lemma RangeSplits(first: int, last: int)
    ensures |Split(RangeText(first, last), '-')| == 2 <==> first >= 0 && last >= 0
    ensures first >= 0 && last >= 0 ==> Split(RangeText(first, last), '-') == [IntText(first), IntText(last)]
  {
    var parts := [IntText(first), IntText(last)];
    assert Join(parts[1..], '-') == IntText(last);
    assert Join(parts, '-') == RangeText(first, last);
    JoinSplitsBack(parts, '-');
    IntTextChars(first, '-');
    IntTextChars(last, '-');
    assert Free(parts, '-') <==> '-' !in parts[0] && '-' !in parts[1];
  }

  /** Parsing a key's text succeeds exactly for readable keys, and then returns every field. */
  lemma KeyRoundTrip(k: CacheKey)
    ensures ParseKey(KeyText(k)).Ok? <==> Readable(k)
    ensures Readable(k) ==> ParseKey(KeyText(k)) == Ok(k)
  {
    JoinSplitsBack(Components(k), '@');
    ComponentsFree(k);
    if Free(Components(k), '@') {
      RangeSplits(k.layerStart, k.layerEnd);
      IntRoundTrip(k.worldSize);
      IntRoundTrip(k.workerId);
      IntRoundTrip(k.layerStart);
      IntRoundTrip(k.layerEnd);
    }
  }

  /** The text a generator gives these arguments. */
  function KeyLine(c: Config, hash: string, worker: int, first: int, last: int, suffix: string): string
  {
    "lmcache" + "@" + c.modelName + "@" + IntText(c.worldSize) + "@"
    + (IntText(worker) + "@" + (IntText(first) + "-" + IntText(last) + "@" + (hash + "@" + suffix)))
  }

  /** Without an end layer the start layer stands for it. */
  lemma MakeKeyIs(c: Config, hash: string, worker: int, first: int, last: Option<int>, suffix: string)
    ensures MakeKey(c, hash, worker, first, last, suffix)
         == KeyLine(c, hash, worker, first, if last.Some? then last.value else first, suffix)
  {
    KeyTextIs(KeyOf(c, hash, worker, first, last, suffix));
  }

  /** When and how parsing fails: the number of '@', then the number of '-' in the layer range, then an integer. */
  lemma ParseKeyFails(key: string)
    ensures var n := Occurrences(key, '@');
      && (n != 6 ==> ParseKey(key) == Err(WrongComponents(n + 1)))
      && (n == 6 ==> |Split(key, '@')| == 7 && FailsAfterSplit(key, Split(key, '@')))
  {
    SplitCount(key, '@');
    if Occurrences(key, '@') == 6 { SplitCount(Split(key, '@')[4], '-'); }
  }

  predicate FailsAfterSplit(key: string, parts: seq<string>)
    requires |parts| == 7
  {
    var layers := Split(parts[4], '-');
    if Occurrences(parts[4], '-') != 1 then ParseKey(key) == Err(BadLayerRange(parts[4]))
    else
      && |layers| == 2
      && (ParseKey(key).Err? ==> ParseKey(key) == Err(BadInteger))
      && (ParseKey(key).Err? <==> ParseInt(parts[2]).None? || ParseInt(parts[3]).None? || ParseInt(layers[0]).None?
                                  || ParseInt(layers[1]).None?)
  }

  /** The same for make_key's arguments. */
  lemma MakeKeyRoundTrip(c: Config, hash: string, worker: int, first: int, last: Option<int>, suffix: string)
    ensures ParseKey(MakeKey(c, hash, worker, first, last, suffix)) == Ok(KeyOf(c, hash, worker, first, last, suffix))
       <==> ('@' !in c.modelName && '@' !in hash && '@' !in suffix && first >= 0 && (last.Some? ==> last.value >= 0))
  {
    KeyRoundTrip(KeyOf(c, hash, worker, first, last, suffix));
  }

  /** A readable key shares its text with no other key, readable or not. */
  lemma KeyTextInjective(k: CacheKey, l: CacheKey)
    requires Readable(k)
    ensures KeyText(k) == KeyText(l) <==> k == l
  {
    KeyRoundTrip(k);
    KeyRoundTrip(l);
  }

  // ---------------------------------------------------------------- the keys of one generator

  function KeyTail(k: CacheKey): string { k.chunkHash + "@" + k.suffix }

  /** The text of a key, its parts in order. */
  lemma KeyTextIs(k: CacheKey)
    ensures KeyText(k) == (k.format + "@" + k.model + "@" + IntText(k.worldSize) + "@")
                          + (IntText(k.workerId) + "@" + (RangeText(k.layerStart, k.layerEnd) + "@" + KeyTail(k)))
  {
    var p := Components(k);
    assert p[6..] == [k.suffix] && p[5..][1..] == p[6..] && p[4..][1..] == p[5..] && p[3..][1..] == p[4..];
    assert p[2..][1..] == p[3..] && p[1..][1..] == p[2..] && p[5..][0] == k.chunkHash;
    assert Join(p[5..], '@') == KeyTail(k);
    assert Join(p[4..], '@') == RangeText(k.layerStart, k.layerEnd) + "@" + KeyTail(k);
    assert Join(p[3..], '@') == IntText(k.workerId) + "@" + (RangeText(k.layerStart, k.layerEnd) + "@" + KeyTail(k));
    Prepend(k.format, k.model, IntText(k.worldSize), Join(p[3..], '@'));
    assert Join(p[2..], '@') == IntText(k.worldSize) + "@" + Join(p[3..], '@');
    assert Join(p[1..], '@') == k.model + "@" + Join(p[2..], '@');
  }

  lemma Prepend(a: string, b: string, c: string, rest: string)
    ensures a + "@" + (b + "@" + (c + "@" + rest)) == (a + "@" + b + "@" + c + "@") + rest
  {
  }

  /** Up to the first separator, equal texts have equal parts. */
  lemma FirstPartUnique(a: string, x: string, b: string, y: string, sep: char)
    requires sep !in a && sep !in b && a + [sep] + x == b + [sep] + y
    ensures a == b && x == y
  {
    SplitFirst(a, x, sep);
    SplitFirst(b, y, sep);
    assert a == Split(a + [sep] + x, sep)[0] && b == Split(b + [sep] + y, sep)[0];
    SamePrefixCancels(a + [sep], x, y);
  }

  function Abs(n: int): nat { if n < 0 then -n else n }

  lemma RangeTextIs(a: int, b: int)
    ensures RangeText(a, b) == (if a < 0 then "-" else "") + (NatText(Abs(a)) + "-" + IntText(b))
    ensures RangeText(a, b)[0] == '-' <==> a < 0
  {
    assert IsDigit(NatText(Abs(a))[0]);
    var x := NatText(Abs(a)) + "-" + IntText(b);
    if a < 0 { assert RangeText(a, b) == "-" + x; } else { assert RangeText(a, b) == "" + x; }
  }

  /** The range text determines both numbers, negative ones too. */
  lemma RangeTextInjective(a: int, b: int, c: int, d: int)
    ensures RangeText(a, b) == RangeText(c, d) <==> a == c && b == d
  {
    if RangeText(a, b) == RangeText(c, d) {
      RangeTextIs(a, b);
      RangeTextIs(c, d);
      var m, n := NatText(Abs(a)), NatText(Abs(c));
      SamePrefixCancels(if a < 0 then "-" else "", m + "-" + IntText(b), n + "-" + IntText(d));
      assert '-' !in m && '-' !in n;
      FirstPartUnique(m, IntText(b), n, IntText(d), '-');
      ParseNatText(Abs(a));
      ParseNatText(Abs(c));
      IntTextInjective(b, d);
    }
  }

  /** What two keys of one generator share when their texts are the same. */
  lemma SameTextSameHead(k: CacheKey, l: CacheKey)
    requires k.format == l.format && k.model == l.model && k.worldSize == l.worldSize && KeyText(k) == KeyText(l)
    ensures k.workerId == l.workerId && k.layerStart == l.layerStart && k.layerEnd == l.layerEnd
    ensures KeyTail(k) == KeyTail(l)
  {
    KeyTextIs(k);
    KeyTextIs(l);
    var head := k.format + "@" + k.model + "@" + IntText(k.worldSize) + "@";
    var m, n := RangeText(k.layerStart, k.layerEnd), RangeText(l.layerStart, l.layerEnd);
    var x, y := m + "@" + KeyTail(k), n + "@" + KeyTail(l);
    SamePrefixCancels(head, IntText(k.workerId) + "@" + x, IntText(l.workerId) + "@" + y);
    IntTextChars(k.workerId, '@');
    IntTextChars(l.workerId, '@');
    FirstPartUnique(IntText(k.workerId), x, IntText(l.workerId), y, '@');
    IntTextInjective(k.workerId, l.workerId);
    RangeHasNoAt(k.layerStart, k.layerEnd);
    RangeHasNoAt(l.layerStart, l.layerEnd);
    FirstPartUnique(m, KeyTail(k), n, KeyTail(l), '@');
    RangeTextInjective(k.layerStart, k.layerEnd, l.layerStart, l.layerEnd);
  }

  lemma JoinTwo(a: string, b: string)
    ensures Join([a, b], '@') == a + "@" + b
  {
    assert [a, b][1..] == [b];
  }

  /** Without '@' in its hash and suffix, a tail is no other key's tail. */
  lemma TailUnique(k: CacheKey, l: CacheKey)
    requires '@' !in k.chunkHash && '@' !in k.suffix && KeyTail(k) == KeyTail(l)
    ensures k.chunkHash == l.chunkHash && k.suffix == l.suffix
  {
    var p, q := [k.chunkHash, k.suffix], [l.chunkHash, l.suffix];
    JoinTwo(k.chunkHash, k.suffix);
    JoinTwo(l.chunkHash, l.suffix);
    JoinSplitsBack(p, '@');
    JoinSplitsBack(q, '@');
    assert p == q;
  }

  /** Some other arguments to the same generator give the same text. */
  ghost predicate Collides(c: Config, k: CacheKey)
  {
    exists hash, worker, first, last, suffix {:trigger KeyOf(c, hash, worker, first, last, suffix)} ::
      KeyOf(c, hash, worker, first, last, suffix) != k && MakeKey(c, hash, worker, first, last, suffix) == KeyText(k)
  }

  /** Text moved across an '@' between two parts leaves the joined text alone. */
  lemma MoveAcross(a: string, b: string) returns (a': string, b': string)
    requires '@' in a || '@' in b
    ensures a' != a && a' + "@" + b' == a + "@" + b
  {
    if '@' in a {
      var i :| 0 <= i < |a| && a[i] == '@';
      a', b' := a[..i], a[i + 1..] + "@" + b;
      Reassociate(a[..i], a[i + 1..], b);
      assert a == a[..i] + "@" + a[i + 1..];
    } else {
      var i :| 0 <= i < |b| && b[i] == '@';
      a', b' := a + "@" + b[..i], b[i + 1..];
      Reassociate(a, b[..i], b[i + 1..]);
      assert b == b[..i] + "@" + b[i + 1..];
    }
  }

  lemma Reassociate(x: string, y: string, z: string)
    ensures x + "@" + (y + "@" + z) == (x + "@" + y) + "@" + z
  {
  }

  lemma AtSignCollides(c: Config, hash: string, worker: int, first: int, last: Option<int>, suffix: string)
    requires '@' in hash || '@' in suffix
    ensures Collides(c, KeyOf(c, hash, worker, first, last, suffix))
  {
    var hash', suffix' := MoveAcross(hash, suffix);
    KeyTextIs(KeyOf(c, hash, worker, first, last, suffix));
    KeyTextIs(KeyOf(c, hash', worker, first, last, suffix'));
  }

  /** make_key gives two different keys one text exactly when a hash or suffix holds an '@'; the model name and the
      signs of the layers do not matter. */
  lemma KeyCollidesIff(c: Config, hash: string, worker: int, first: int, last: Option<int>, suffix: string)
    ensures Collides(c, KeyOf(c, hash, worker, first, last, suffix)) <==> '@' in hash || '@' in suffix
  {
    var k := KeyOf(c, hash, worker, first, last, suffix);
    if '@' in hash || '@' in suffix {
      AtSignCollides(c, hash, worker, first, last, suffix);
    } else {
      forall hash', worker', first', last', suffix' {:trigger KeyOf(c, hash', worker', first', last', suffix')}
        | MakeKey(c, hash', worker', first', last', suffix') == KeyText(k)
        ensures KeyOf(c, hash', worker', first', last', suffix') == k
      {
        var l := KeyOf(c, hash', worker', first', last', suffix');
        SameTextSameHead(k, l);
        TailUnique(k, l);
      }
    }
  }

  // ---------------------------------------------------------------- one key for each worker

  function MakeKeysForAllWorkers(c: Config, hash: string, first: int, last: Option<int>, suffix: string): seq<string>
  {
    seq(Max(0, c.worldSize), worker => MakeKey(c, hash, worker, first, last, suffix))
  }

  /** Changing one component changes the joined text, whatever the components contain. */
  lemma {:induction false} JoinComponent(parts: seq<string>, i: nat, a: string, b: string)
    requires i < |parts| && a != b
    ensures Join(parts[i := a], '@') != Join(parts[i := b], '@')
  {
    if i > 0 {
      JoinComponent(parts[1..], i - 1, a, b);
      assert parts[i := a][1..] == parts[1..][i - 1 := a];
      assert parts[i := b][1..] == parts[1..][i - 1 := b];
      SamePrefixCancels(parts[0] + "@", Join(parts[i := a][1..], '@'), Join(parts[i := b][1..], '@'));
    } else if |parts| > 1 {
      assert parts[0 := a][1..] == parts[1..] == parts[0 := b][1..];
      SameSuffixCancels(a, b, "@" + Join(parts[1..], '@'));
      assert a + "@" + Join(parts[1..], '@') == a + ("@" + Join(parts[1..], '@'));
      assert b + "@" + Join(parts[1..], '@') == b + ("@" + Join(parts[1..], '@'));
    }
  }

  lemma SamePrefixCancels(p: string, a: string, b: string)
    ensures p + a == p + b <==> a == b
  {
    assert a == (p + a)[|p|..];
    assert b == (p + b)[|p|..];
  }

  lemma SameSuffixCancels(a: string, b: string, s: string)
    ensures a + s == b + s <==> a == b
  {
    if a + s == b + s {
      assert |a| + |s| == |b| + |s|;
      assert a == (a + s)[..|a|];
      assert b == (b + s)[..|b|];
    }
  }

  /** One key per worker, and no two of them alike. */
  lemma WorkerKeysDistinct(c: Config, hash: string, first: int, last: Option<int>, suffix: string)
    ensures var keys := MakeKeysForAllWorkers(c, hash, first, last, suffix);
      && |keys| == Max(0, c.worldSize)
      && (forall v, w | 0 <= v < w < |keys| :: keys[v] != keys[w])
      && forall w {:trigger keys[w]} | 0 <= w < |keys| ::
           keys[w] == KeyLine(c, hash, w, first, if last.Some? then last.value else first, suffix)
  {
    forall w
      ensures MakeKey(c, hash, w, first, last, suffix)
           == KeyLine(c, hash, w, first, if last.Some? then last.value else first, suffix)
    {
      MakeKeyIs(c, hash, w, first, last, suffix);
    }
    var keys := MakeKeysForAllWorkers(c, hash, first, last, suffix);
    var parts := Components(KeyOf(c, hash, 0, first, last, suffix));
    forall v, w | 0 <= v < w < |keys|
      ensures keys[v] != keys[w]
    {
      IntTextInjective(v, w);
      assert Components(KeyOf(c, hash, v, first, last, suffix)) == parts[3 := IntText(v)];
      assert Components(KeyOf(c, hash, w, first, last, suffix)) == parts[3 := IntText(w)];
      JoinComponent(parts, 3, IntText(v), IntText(w));
    }
  }

  // ---------------------------------------------------------------- one key for each layer shard

  predicate Before(at: int, stop: int, step: int) { (step > 0 && at < stop) || (step < 0 && at > stop) }

  /** Python's range(at, stop, step). */
  function Range(at: int, stop: int, step: int): seq<int>
    requires step != 0
    decreases if step > 0 then stop - at else at - stop
  {
    if Before(at, stop, step) then [at] + Range(at + step, stop, step) else []
  }

  function LastLayer(at: int, numLayers: int, perShard: int): int { Min(at + perShard - 1, numLayers - 1) }

  /** The key of the shard that starts at a layer. */
  function ShardKey(c: Config, hash: string, numLayers: int, perShard: int, worker: int, suffix: string): int -> string
  {
    (at: int) => MakeKey(c, hash, worker, at, Some(LastLayer(at, numLayers, perShard)), suffix)
  }

  function Map<A, B>(f: A -> B, xs: seq<A>): seq<B> { seq(|xs|, i requires 0 <= i < |xs| => f(xs[i])) }

  lemma MapAppend<A, B>(f: A -> B, xs: seq<A>, x: A)
    ensures Map(f, xs + [x]) == Map(f, xs) + [f(x)]
  {
  }

  lemma RangeNext(starts: seq<int>, done: nat, at: int, stop: int, step: int)
    requires step != 0 && Before(at, stop, step) && done <= |starts| && starts[done..] == Range(at, stop, step)
    ensures done < |starts| && starts[..done + 1] == starts[..done] + [at]
    ensures starts[done + 1..] == Range(at + step, stop, step)
  {
  }

  lemma {:induction false} RangeElement(at: int, stop: int, step: int, i: nat)
    requires step != 0 && i < |Range(at, stop, step)|
    ensures Range(at, stop, step)[i] == at + i * step
    decreases i
  {
    if i > 0 {
      RangeElement(at + step, stop, step, i - 1);
      assert i * step == (i - 1) * step + step;
    }
  }

  /** Key i is that of the layers from i * per_shard on, per_shard of them or up to the last. */
  predicate ShardLines(c: Config, hash: string, numLayers: int, perShard: int, worker: int, suffix: string,
                       keys: seq<string>)
  {
    forall i {:trigger keys[i]} | 0 <= i < |keys| ::
      var first := i * perShard;
      keys[i] == KeyLine(c, hash, worker, first, Min(first + perShard - 1, numLayers - 1), suffix)
  }

  lemma ShardLinesAre(c: Config, hash: string, numLayers: int, perShard: int, worker: int, suffix: string)
    requires perShard != 0
    ensures ShardLines(c, hash, numLayers, perShard, worker, suffix,
                       Map(ShardKey(c, hash, numLayers, perShard, worker, suffix), Range(0, numLayers, perShard)))
  {
    var starts := Range(0, numLayers, perShard);
    forall i {:trigger starts[i]} | 0 <= i < |starts|
      ensures starts[i] == i * perShard
      ensures ShardKey(c, hash, numLayers, perShard, worker, suffix)(starts[i])
           == KeyLine(c, hash, worker, starts[i], Min(starts[i] + perShard - 1, numLayers - 1), suffix)
    {
      RangeElement(0, numLayers, perShard, i);
      MakeKeyIs(c, hash, worker, starts[i], Some(LastLayer(starts[i], numLayers, perShard)), suffix);
    }
  }

  /** A step of 0 is range's ValueError. */
  method MakeKeysForLayers(c: Config, hash: string, numLayers: int, perShard: int, worker: int, suffix: string)
    returns (r: Result<seq<string>, ()>)
    ensures r.Err? <==> perShard == 0
    ensures r.Ok? ==>
      r.value == Map(ShardKey(c, hash, numLayers, perShard, worker, suffix), Range(0, numLayers, perShard))
    ensures r.Ok? ==> ShardLines(c, hash, numLayers, perShard, worker, suffix, r.value)
  {
    hide ShardLines, MakeKey;
    if perShard == 0 { return Err(()); }
    ShardLinesAre(c, hash, numLayers, perShard, worker, suffix);
    ghost var f, starts := ShardKey(c, hash, numLayers, perShard, worker, suffix), Range(0, numLayers, perShard);
    ghost var done := 0;
    var keys := [];
    var layerStart := 0;
    while Before(layerStart, numLayers, perShard)
      invariant done <= |starts| && starts[done..] == Range(layerStart, numLayers, perShard)
      invariant keys == Map(f, starts[..done])
      decreases if perShard > 0 then numLayers - layerStart else layerStart - numLayers
    {
      var layerEnd := Min(layerStart + perShard - 1, numLayers - 1);
      var key := MakeKey(c, hash, worker, layerStart, Some(layerEnd), suffix);
      RangeNext(starts, done, layerStart, numLayers, perShard);
      MapAppend(f, starts[..done], layerStart);
      keys := keys + [key];
      layerStart := layerStart + perShard;
      done := done + 1;
    }
    assert starts[..done] == starts;
    return Ok(keys);
  }

  lemma {:induction false} RangeIs(per: Pos, n: int, from: nat, i: nat)
    requires Mod(from, per) == 0
    ensures var starts := Range(from, n, per);
      && (i < |starts| <==> from + Offset(per, i) < n)
      && (i < |starts| ==> starts[i] == from + Offset(per, i))
    decreases i
  {
    if i == 0 {
    } else if from < n {
      AddMultiple(from, per, per);
      assert Mod(per, per) == 0;
      RangeIs(per, n, from + per, i - 1);
    } else {
      OffsetMono(per, 0, i);
    }
  }

  lemma {:induction false} RangeBeyond(at: int, stop: int, step: int, i: nat)
    requires step != 0 && i < |Range(at, stop, step)|
    ensures if step > 0 then Range(at, stop, step)[i] >= at else Range(at, stop, step)[i] <= at
    decreases i
  {
    if i > 0 { RangeBeyond(at + step, stop, step, i - 1); }
  }

  lemma {:induction false} RangeDistinct(at: int, stop: int, step: int, i: nat, j: nat)
    requires step != 0 && i < j < |Range(at, stop, step)|
    ensures Range(at, stop, step)[i] != Range(at, stop, step)[j]
    decreases i
  {
    if i > 0 {
      RangeDistinct(at + step, stop, step, i - 1, j - 1);
    } else {
      RangeBeyond(at + step, stop, step, j - 1);
    }
  }

  /** Layer shard i holds a layer. */
  predicate Holds(starts: seq<int>, numLayers: int, perShard: int, layer: int, i: nat)
    requires i < |starts|
  {
    starts[i] <= layer <= LastLayer(starts[i], numLayers, perShard)
  }

  predicate OnlyShard(starts: seq<int>, numLayers: int, perShard: int, layer: int, i: int)
  {
    && 0 <= i < |starts|
    && forall j: nat {:trigger Holds(starts, numLayers, perShard, layer, j)} | j < |starts| ::
         (Holds(starts, numLayers, perShard, layer, j) <==> j == i)
  }

  lemma HoldsIff(numLayers: int, per: Pos, layer: nat, i: nat)
    requires layer < numLayers && i < |Range(0, numLayers, per)|
    ensures Holds(Range(0, numLayers, per), numLayers, per, layer, i) <==> i == Div(layer, per)
  {
    DivMod(layer, per);
    RangeIs(per, numLayers, 0, i);
    if i < Div(layer, per) { OffsetMono(per, i, Div(layer, per)); }
    if i > Div(layer, per) { OffsetMono(per, Div(layer, per), i); }
  }

  lemma OnlyAt(numLayers: int, per: Pos, layer: nat, i: nat)
    requires layer < numLayers && i == Div(layer, per)
    ensures OnlyShard(Range(0, numLayers, per), numLayers, per, layer, i)
  {
    var starts := Range(0, numLayers, per);
    DivMod(layer, per);
    RangeIs(per, numLayers, 0, i);
    forall j: nat {:trigger Holds(starts, numLayers, per, layer, j)} | j < |starts|
      ensures Holds(starts, numLayers, per, layer, j) <==> j == i
    {
      HoldsIff(numLayers, per, layer, j);
    }
  }

  /** Every layer lies in exactly one shard, number layer // per. */
  lemma ShardsTile(numLayers: int, per: Pos, layer: nat)
    requires layer < numLayers
    ensures OnlyShard(Range(0, numLayers, per), numLayers, per, layer, layer / per)
  {
    DivModAgree(layer, per);
    OnlyAt(numLayers, per, layer, layer / per);
  }

  /** Shard i is one of the layers, and starts right after shard i - 1. */
  predicate ShardFits(starts: seq<int>, numLayers: int, perShard: int, i: nat)
    requires i < |starts|
  {
    && 0 <= starts[i] <= LastLayer(starts[i], numLayers, perShard) < numLayers
    && starts[i] == if i == 0 then 0 else LastLayer(starts[i - 1], numLayers, perShard) + 1
  }

  lemma ShardFollows(numLayers: int, per: Pos, i: nat)
    requires i < |Range(0, numLayers, per)|
    ensures ShardFits(Range(0, numLayers, per), numLayers, per, i)
  {
    RangeIs(per, numLayers, 0, i);
    if i > 0 { RangeIs(per, numLayers, 0, i - 1); }
  }

  lemma ShardCount(numLayers: int, per: Pos)
    ensures |Range(0, numLayers, per)| == (Max(0, numLayers) + per - 1) / per
  {
    var n, k := Max(0, numLayers), |Range(0, numLayers, per)|;
    DivModAgree(n + per - 1, per);
    RangeIs(per, numLayers, 0, k);
    PieceIndex(n, per, k);
    if k > 0 {
      RangeIs(per, numLayers, 0, k - 1);
      PieceIndex(n, per, k - 1);
    }
  }

  /** Shards follow each other without gap or overlap, from layer 0 to the last layer. */
  lemma ShardsAdjoin(numLayers: int, per: Pos)
    ensures var starts := Range(0, numLayers, per);
      && |starts| == (Max(0, numLayers) + per - 1) / per
      && (starts != [] ==> LastLayer(starts[|starts| - 1], numLayers, per) == numLayers - 1)
      && forall i: nat {:trigger ShardFits(starts, numLayers, per, i)} | i < |starts| ::
           ShardFits(starts, numLayers, per, i)
  {
    var starts := Range(0, numLayers, per);
    ShardCount(numLayers, per);
    if starts != [] {
      RangeIs(per, numLayers, 0, |starts|);
      RangeIs(per, numLayers, 0, |starts| - 1);
    }
    forall i: nat {:trigger ShardFits(starts, numLayers, per, i)} | i < |starts|
      ensures ShardFits(starts, numLayers, per, i)
    {
      ShardFollows(numLayers, per, i);
    }
  }

  ghost predicate HeldOnce(starts: seq<int>, numLayers: int, perShard: int, layer: int)
  {
    exists i :: OnlyShard(starts, numLayers, perShard, layer, i)
  }

  /** The shards are those of the layers [0, num_layers): none reaches outside, and each layer lies in exactly one. */
  ghost predicate Tiled(numLayers: int, perShard: int)
    requires perShard != 0
  {
    var starts := Range(0, numLayers, perShard);
    && (forall i {:trigger starts[i]} | 0 <= i < |starts| ::
          0 <= starts[i] <= LastLayer(starts[i], numLayers, perShard) < numLayers)
    && forall layer | 0 <= layer < numLayers :: HeldOnce(starts, numLayers, perShard, layer)
  }

  /** For any numbers, the shards tile the layers exactly when the shard size is positive or there are no layers. */
  lemma TiledIff(numLayers: int, perShard: int)
    requires perShard != 0
    ensures Tiled(numLayers, perShard) <==> perShard > 0 || numLayers == 0
  {
    var starts := Range(0, numLayers, perShard);
    if perShard > 0 {
      forall i: nat {:trigger starts[i]} | i < |starts|
        ensures 0 <= starts[i] <= LastLayer(starts[i], numLayers, perShard) < numLayers
      {
        ShardFollows(numLayers, perShard, i);
      }
      forall layer | 0 <= layer < numLayers
        ensures HeldOnce(starts, numLayers, perShard, layer)
      {
        ShardsTile(numLayers, perShard, layer);
      }
    } else if numLayers < 0 {
      assert starts[0] == 0;
    } else {
      assert starts == [];
      assert numLayers > 0 ==> !HeldOnce(starts, numLayers, perShard, 0);
    }
  }

  /** No two shards share a key, whatever the numbers, the hash and the suffix. */
  lemma LayerKeysDistinct(c: Config, hash: string, numLayers: int, perShard: int, worker: int, suffix: string)
    requires perShard != 0
    ensures var keys := Map(ShardKey(c, hash, numLayers, perShard, worker, suffix), Range(0, numLayers, perShard));
      forall i, j | 0 <= i < j < |keys| :: keys[i] != keys[j]
  {
    var starts, f := Range(0, numLayers, perShard), ShardKey(c, hash, numLayers, perShard, worker, suffix);
    forall i, j | 0 <= i < j < |starts|
      ensures f(starts[i]) != f(starts[j])
    {
      RangeDistinct(0, numLayers, perShard, i, j);
      ShardKeysDiffer(c, hash, numLayers, perShard, worker, suffix, starts[i], starts[j]);
    }
  }

  lemma ShardKeysDiffer(c: Config, hash: string, numLayers: int, perShard: int, worker: int, suffix: string, a: int,
                        b: int)
    requires a != b
    ensures ShardKey(c, hash, numLayers, perShard, worker, suffix)(a)
         != ShardKey(c, hash, numLayers, perShard, worker, suffix)(b)
  {
    var y, z := LastLayer(a, numLayers, perShard), LastLayer(b, numLayers, perShard);
    var parts := Components(KeyOf(c, hash, worker, a, Some(y), suffix));
    RangeTextInjective(a, y, b, z);
    assert parts == parts[4 := RangeText(a, y)];
    assert Components(KeyOf(c, hash, worker, b, Some(z), suffix)) == parts[4 := RangeText(b, z)];
    JoinComponent(parts, 4, RangeText(a, y), RangeText(b, z));
  }
}
