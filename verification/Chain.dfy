/** Fixed-size pieces of a sequence and their prefix-chained hashes, for any element and hash type.

A piece is hashed together with the hash of the piece before it, so a hash speaks for the whole prefix. */
module Chain {
  import opened Wrappers
  import opened Arith

  /** The slice `[i * g, i * g + g)` of s, cut at its end. */
  function Piece<T>(s: seq<T>, g: Pos, i: nat): (p: seq<T>)
    requires Offset(g, i) < |s|
    ensures 0 < |p| <= g
  {
    s[Offset(g, i)..PieceEnd(s, g, i)]
  }

  function PieceEnd<T>(s: seq<T>, g: Pos, i: nat): nat { Min(Offset(g, i) + g, |s|) }

  predicate ArePieces<T(==)>(parts: seq<seq<T>>, s: seq<T>, g: Pos)
  {
    forall k: nat {:trigger parts[k]} | k < |parts| :: Offset(g, k) < |s| && parts[k] == Piece(s, g, k)
  }

  lemma PiecesAppend<T>(parts: seq<seq<T>>, s: seq<T>, g: Pos)
    requires ArePieces(parts, s, g) && Offset(g, |parts|) < |s|
    ensures ArePieces(parts + [Piece(s, g, |parts|)], s, g)
  {
  }

  /** Every piece but the last is full. */
  lemma PieceSizes<T>(parts: seq<seq<T>>, s: seq<T>, g: Pos, i: nat)
    requires ArePieces(parts, s, g) && i < |parts|
    ensures 1 <= |parts[i]| <= g && (i < |parts| - 1 ==> |parts[i]| == g)
  {
    var n: nat := |parts| - 1;
    var last := parts[n];
    assert Offset(g, n) < |s|;
    if i < n { OffsetMono(g, i, n); }
  }

  function Concat<T>(parts: seq<seq<T>>): seq<T>
  {
    if parts == [] then [] else parts[0] + Concat(parts[1..])
  }

  lemma {:induction false} ConcatAppend<T>(parts: seq<seq<T>>, last: seq<T>)
    ensures Concat(parts + [last]) == Concat(parts) + last
  {
    if parts == [] {
      assert [last][1..] == [];
    } else {
      assert (parts + [last])[1..] == parts[1..] + [last];
      ConcatAppend(parts[1..], last);
    }
  }

  /** Peeling the last piece off a prefix. */
  lemma PrefixSplit<T>(s: seq<T>, g: Pos, i: nat)
    requires Offset(g, i) < |s|
    ensures s[..PieceEnd(s, g, i)] == s[..Offset(g, i)] + Piece(s, g, i)
    ensures i > 0 ==> Offset(g, i - 1) < |s| && PieceEnd(s, g, i - 1) == Offset(g, i)
  {
  }

  /** Splitting into pieces loses nothing and keeps the order. */
  lemma {:induction false} PiecesCover<T>(s: seq<T>, g: Pos, parts: seq<seq<T>>)
    requires ArePieces(parts, s, g)
    ensures Concat(parts) == s[..Min(Offset(g, |parts|), |s|)]
  {
    if parts != [] {
      var n := |parts| - 1;
      PiecesCover(s, g, parts[..n]);
      ConcatAppend(parts[..n], parts[n]);
      assert parts == parts[..n] + [parts[n]];
      PrefixSplit(s, g, n);
    }
  }

  ghost predicate SamePieces<T>(a: seq<T>, b: seq<T>, g: Pos)
  {
    forall i: nat | Offset(g, i) < |a| && Offset(g, i) < |b| :: Piece(a, g, i) == Piece(b, g, i)
  }

  /** Sequences with as many pieces, all alike, are the same. */
  lemma PiecesDetermine<T>(a: seq<T>, b: seq<T>, g: Pos)
    requires CeilDiv(|a|, g) == CeilDiv(|b|, g) && SamePieces(a, b, g)
    ensures a == b
  {
    var n := CeilDiv(|a|, g);
    forall i: nat
      ensures i < n <==> Offset(g, i) < |a|
      ensures i < n <==> Offset(g, i) < |b|
    {
      PieceIndex(|a|, g, i);
      PieceIndex(|b|, g, i);
    }
    var parts := seq(n, i requires 0 <= i < n => Piece(a, g, i));
    PiecesCover(a, g, parts);
    PiecesCover(b, g, parts);
    assert Offset(g, n) >= |a| && Offset(g, n) >= |b|;
  }

  /** f applied to each piece of s in turn. */
  function MapPieces<T, U>(f: seq<T> -> U, g: Pos, s: seq<T>): (r: seq<U>)
    ensures |r| == CeilDiv(|s|, g)
  {
    seq(CeilDiv(|s|, g), i requires 0 <= i < CeilDiv(|s|, g) => PieceIndex(|s|, g, i); f(Piece(s, g, i)))
  }

  lemma SharedPrefixSharesPiece<T>(g: Pos, a: seq<T>, b: seq<T>, shared: nat, i: nat)
    requires shared <= |a| && shared <= |b| && a[..shared] == b[..shared] && Offset(g, i) + g <= shared
    ensures i < CeilDiv(|a|, g) && i < CeilDiv(|b|, g)
    ensures Piece(a, g, i) == Piece(b, g, i)
  {
    PieceIndex(|a|, g, i);
    PieceIndex(|b|, g, i);
    var lo := Offset(g, i);
    assert Piece(a, g, i) == a[..shared][lo..lo + g];
    assert Piece(b, g, i) == b[..shared][lo..lo + g];
  }

  /** Prefix stability: sharing L elements means sharing the first L / g images. */
  lemma SharedPrefixSharesImages<T, U>(f: seq<T> -> U, g: Pos, a: seq<T>, b: seq<T>, shared: nat)
    requires shared <= |a| && shared <= |b| && a[..shared] == b[..shared]
    ensures Div(shared, g) <= |MapPieces(f, g, a)| && Div(shared, g) <= |MapPieces(f, g, b)|
    ensures MapPieces(f, g, a)[..Div(shared, g)] == MapPieces(f, g, b)[..Div(shared, g)]
  {
    var n := Div(shared, g);
    var x, y := MapPieces(f, g, a), MapPieces(f, g, b);
    forall i: nat | i < n
      ensures i < |x| && i < |y| && x[i] == y[i]
    {
      WholePiece(shared, g, i);
      SharedPrefixSharesPiece(g, a, b, shared, i);
    }
    if n > 0 {
      WholePiece(shared, g, n - 1);
      SharedPrefixSharesPiece(g, a, b, shared, n - 1);
    }
  }

  // ---------------------------------------------------------------- prefix-chained hashes

  /** What one hash is computed from. */
  datatype Link<T, D> = Link(parent: Option<D>, piece: seq<T>)

  function HashAt<T, D>(h: Link<T, D> -> D, g: Pos, s: seq<T>, i: nat): D
    requires Offset(g, i) < |s|
    decreases i
  {
    h(Link(if i == 0 then None else Some(HashAt(h, g, s, i - 1)), Piece(s, g, i)))
  }

  function LinkAt<T, D>(h: Link<T, D> -> D, g: Pos, s: seq<T>, i: nat): (l: Link<T, D>)
    requires Offset(g, i) < |s|
    ensures HashAt(h, g, s, i) == h(l)
  {
    Link(if i == 0 then None else Some(HashAt(h, g, s, i - 1)), Piece(s, g, i))
  }

  ghost predicate InjectiveOn<T, D>(h: Link<T, D> -> D, links: set<Link<T, D>>)
  {
    forall l, m | l in links && m in links && h(l) == h(m) :: l == m
  }

  ghost predicate LinksIn<T, D>(h: Link<T, D> -> D, g: Pos, s: seq<T>, links: set<Link<T, D>>)
  {
    forall i: nat {:trigger LinkAt(h, g, s, i)} | Offset(g, i) < |s| :: LinkAt(h, g, s, i) in links
  }

  /** A chained hash depends on nothing but the elements up to the end of its piece. */
  lemma {:induction false} SamePrefixSameHash<T, D>(h: Link<T, D> -> D, g: Pos, a: seq<T>, b: seq<T>, i: nat)
    requires Offset(g, i) < |a| && Offset(g, i) < |b| && a[..PieceEnd(a, g, i)] == b[..PieceEnd(b, g, i)]
    ensures HashAt(h, g, a, i) == HashAt(h, g, b, i)
  {
    PrefixSplit(a, g, i);
    PrefixSplit(b, g, i);
    var lo, pa, pb := Offset(g, i), Piece(a, g, i), Piece(b, g, i);
    assert (a[..lo] + pa)[..lo] == a[..lo] && (a[..lo] + pa)[lo..] == pa;
    assert (b[..lo] + pb)[..lo] == b[..lo] && (b[..lo] + pb)[lo..] == pb;
    if i > 0 {
      SamePrefixSameHash(h, g, a, b, i - 1);
    }
  }

  lemma {:induction false} SameHashSamePrefix<T, D>(h: Link<T, D> -> D, links: set<Link<T, D>>, g: Pos,
                                                    a: seq<T>, i: nat, b: seq<T>, j: nat)
    requires Offset(g, i) < |a| && Offset(g, j) < |b|
    requires InjectiveOn(h, links) && LinksIn(h, g, a, links) && LinksIn(h, g, b, links)
    requires HashAt(h, g, a, i) == HashAt(h, g, b, j)
    ensures i == j && a[..PieceEnd(a, g, i)] == b[..PieceEnd(b, g, j)]
    decreases i
  {
    assert LinkAt(h, g, a, i) == LinkAt(h, g, b, j);
    PrefixSplit(a, g, i);
    PrefixSplit(b, g, j);
    if i > 0 && j > 0 {
      SameHashSamePrefix(h, links, g, a, i - 1, b, j - 1);
    }
  }

  /** A piece's hash identifies the whole prefix it ends: equal hashes at piece i of a and piece j of b hold
      exactly when i = j and the two sequences agree up to the end of that piece. */
  lemma HashIdentifiesPrefix<T, D>(h: Link<T, D> -> D, links: set<Link<T, D>>, g: Pos,
                                   a: seq<T>, i: nat, b: seq<T>, j: nat)
    requires Offset(g, i) < |a| && Offset(g, j) < |b|
    requires InjectiveOn(h, links) && LinksIn(h, g, a, links) && LinksIn(h, g, b, links)
    ensures HashAt(h, g, a, i) == HashAt(h, g, b, j)
       <==> (i == j && a[..PieceEnd(a, g, i)] == b[..PieceEnd(b, g, j)])
  {
    if HashAt(h, g, a, i) == HashAt(h, g, b, j) {
      SameHashSamePrefix(h, links, g, a, i, b, j);
    } else if i == j && a[..PieceEnd(a, g, i)] == b[..PieceEnd(b, g, j)] {
      SamePrefixSameHash(h, g, a, b, i);
    }
  }

  // ---------------------------------------------------------------- scanning up the chain

  predicate MatchedAt<T, D(==)>(h: Link<T, D> -> D, g: Pos, s: seq<T>, cached: set<D>, i: nat, hash: D)
  {
    Offset(g, i) < |s| && hash == HashAt(h, g, s, i) && hash in cached
  }

  predicate AllMatched<T, D(==)>(h: Link<T, D> -> D, g: Pos, s: seq<T>, cached: set<D>, hashes: seq<D>)
  {
    forall i: nat {:trigger hashes[i]} | i < |hashes| :: MatchedAt(h, g, s, cached, i, hashes[i])
  }

  /** The matched pieces are the longest run from the start that is all cached. */
  predicate IsPrefixMatch<T, D(==)>(h: Link<T, D> -> D, g: Pos, s: seq<T>, cached: set<D>, matched: nat, hashes: seq<D>)
  {
    var r := |hashes|;
    && matched == Min(Offset(g, r), |s|)
    && AllMatched(h, g, s, cached, hashes)
    && (Offset(g, r) < |s| ==> HashAt(h, g, s, r) !in cached)
  }
}
