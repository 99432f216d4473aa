/** Different text need not give different tokens (src/kvbench/core/tokens.py): there are more pieces than ids. */
module TokenCollision {
  import opened Arith
  import opened Tokens

  ghost function Image(f: nat -> nat, m: nat): set<nat> { set k: nat | k < m :: f(k) }

  lemma {:induction false} InjectiveImage(f: nat -> nat, m: nat)
    requires forall i: nat, j: nat | i < j < m :: f(i) != f(j)
    ensures |Image(f, m)| == m
  {
    if m > 0 {
      InjectiveImage(f, m - 1);
      var image := Image(f, m - 1);
      forall x | x in image ensures x != f(m - 1) {
        var k: nat :| k < m - 1 && f(k) == x;
      }
      assert Image(f, m) == image + {f(m - 1)};
    }
  }

  lemma {:induction false} BelowCard(s: set<nat>, n: nat)
    requires forall x | x in s :: x < n
    ensures |s| <= n
  {
    if n > 0 {
      BelowCard(s - {n - 1}, n - 1);
      assert s <= (s - {n - 1}) + {n - 1};
    } else {
      assert s == {};
    }
  }

  /** More pigeons than holes. */
  lemma Pigeonhole(f: nat -> nat, m: nat, n: nat)
    requires n < m && forall k: nat | k < m :: f(k) < n
    ensures exists i: nat, j: nat :: i < j < m && f(i) == f(j)
  {
    if forall i: nat, j: nat | i < j < m :: f(i) != f(j) {
      InjectiveImage(f, m);
      BelowCard(Image(f, m), n);
      assert false;
    }
  }

  /** Three ASCII characters for each number below 128 * 128 * 128. */
  function Spelling(k: nat): seq<Byte> { [k % 128, k / 128 % 128, k / 16384 % 128] }

  lemma SpellingDistinct(i: nat, j: nat)
    requires i < 2097152 && j < 2097152
    ensures Spelling(i) == Spelling(j) <==> i == j
  {
    Digits128(i);
    Digits128(j);
    var a, b := Spelling(i), Spelling(j);
    if a == b { assert a[0] == b[0] && a[1] == b[1] && a[2] == b[2]; }
  }

  lemma Digits128(k: nat)
    requires k < 2097152
    ensures k == k % 128 + 128 * (k / 128 % 128) + 16384 * (k / 16384 % 128)
  {
  }

  // ---------------------------------------------------------------- when tokens do identify the text

  /** Every piece of the text is one of these. */
  ghost predicate PiecesIn(text: seq<Byte>, g: Pos, pieces: set<seq<Byte>>)
  {
    forall i: nat | Offset(g, i) < |text| :: Chain.Piece(text, g, i) in pieces
  }

  /** Different pieces have different ids. */
  ghost predicate IdsDiffer(sha: Sha, pieces: set<seq<Byte>>)
  {
    forall p, q | p in pieces && q in pieces && TokenId(sha, p) == TokenId(sha, q) :: p == q
  }

  /** Different texts over these pieces have different tokens. */
  ghost predicate ContentBased(sha: Sha, g: Pos, pieces: set<seq<Byte>>)
  {
    forall a, b | PiecesIn(a, g, pieces) && PiecesIn(b, g, pieces) && Tokenize(sha, g, a) == Tokenize(sha, g, b) ::
      a == b
  }

  lemma TokenAt(sha: Sha, g: Pos, text: seq<Byte>, i: nat)
    ensures Offset(g, i) < |text| <==> i < |Tokenize(sha, g, text)|
    ensures i < |Tokenize(sha, g, text)| ==> Tokenize(sha, g, text)[i] == TokenId(sha, Chain.Piece(text, g, i))
  {
    PieceIndex(|text|, g, i);
    if i < |Tokenize(sha, g, text)| {
      assert Tokenize(sha, g, text)[i] == TokenOf(sha)(Chain.Piece(text, g, i));
    }
  }

  lemma SameTokensSameText(sha: Sha, g: Pos, pieces: set<seq<Byte>>, a: seq<Byte>, b: seq<Byte>)
    requires IdsDiffer(sha, pieces) && PiecesIn(a, g, pieces) && PiecesIn(b, g, pieces)
    requires Tokenize(sha, g, a) == Tokenize(sha, g, b)
    ensures a == b
  {
    forall i: nat | Offset(g, i) < |a| && Offset(g, i) < |b|
      ensures Chain.Piece(a, g, i) == Chain.Piece(b, g, i)
    {
      TokenAt(sha, g, a, i);
      TokenAt(sha, g, b, i);
    }
    assert CeilDiv(|a|, g) == |Tokenize(sha, g, a)| && CeilDiv(|b|, g) == |Tokenize(sha, g, b)|;
    Chain.PiecesDetermine(a, b, g);
  }

  lemma PieceAlone(sha: Sha, g: Pos, piece: seq<Byte>)
    requires 0 < |piece| <= g
    ensures Tokenize(sha, g, piece) == [TokenId(sha, piece)]
    ensures forall pieces | piece in pieces :: PiecesIn(piece, g, pieces)
  {
    assert Offset(g, 0) == 0 && Chain.Piece(piece, g, 0) == piece;
    TokenAt(sha, g, piece, 0);
    TokenAt(sha, g, piece, 1);
    forall i: nat | i > 0
      ensures Offset(g, i) >= |piece|
    {
      OffsetMono(g, 0, i);
    }
  }

  /** Tokens identify the texts over a set of pieces exactly when no two of the pieces share an id. */
  lemma ContentBasedIff(sha: Sha, g: Pos, pieces: set<seq<Byte>>)
    requires forall p | p in pieces :: 0 < |p| <= g
    ensures ContentBased(sha, g, pieces) <==> IdsDiffer(sha, pieces)
  {
    if IdsDiffer(sha, pieces) {
      forall a, b | PiecesIn(a, g, pieces) && PiecesIn(b, g, pieces) && Tokenize(sha, g, a) == Tokenize(sha, g, b)
        ensures a == b
      {
        SameTokensSameText(sha, g, pieces, a, b);
      }
    }
    if ContentBased(sha, g, pieces) {
      forall p, q | p in pieces && q in pieces && TokenId(sha, p) == TokenId(sha, q)
        ensures p == q
      {
        PieceAlone(sha, g, p);
        PieceAlone(sha, g, q);
      }
    }
  }

  // ---------------------------------------------------------------- when a collision cannot be avoided

  /** With at least three bytes a piece no hash keeps the ids of all three-character ASCII pieces apart: two such texts
      tokenize alike. */
  lemma DifferentTextSameTokens(sha: Sha, g: Pos) returns (a: seq<Byte>, b: seq<Byte>)
    requires g >= 3
    ensures a != b && |a| == |b| == 3 && Tokenize(sha, g, a) == Tokenize(sha, g, b)
    ensures forall k | 0 <= k < 3 :: a[k] < 128 && b[k] < 128
  {
    var f: nat -> nat := (k: nat) => TokenId(sha, Spelling(k));
    Pigeonhole(f, VOCAB + 1, VOCAB);
    var i: nat, j: nat :| i < j < VOCAB + 1 && f(i) == f(j);
    SpellingDistinct(i, j);
    a, b := Spelling(i), Spelling(j);
    PieceAlone(sha, g, a);
    PieceAlone(sha, g, b);
  }

  /** A hash that numbers the pieces of one and two bytes. */
  function Numbering(): Sha
  {
    (piece: seq<Byte>) =>
      if |piece| == 1 then Padded(piece[0], 0, 0)
      else if |piece| == 2 then
        if piece[1] < 255 then Padded(piece[0], piece[1] + 1, 0) else Padded(piece[0], 0, 1)
      else Padded(0, 0, 0)
  }

  function Padded(b0: Byte, b1: Byte, b2: Byte): Digest { [b0, b1, b2] + seq(29, _ => 0) }

  lemma PaddedId(b0: Byte, b1: Byte, b2: Byte)
    requires b2 <= 1 && (b2 == 1 ==> b1 == 0)
    ensures FromLe4(Padded(b0, b1, b2)[..4]) % VOCAB == b0 + 256 * b1 + 65536 * b2
  {
    assert Padded(b0, b1, b2)[..4] == [b0, b1, b2, 0];
  }

  function Number(piece: seq<Byte>): int
    requires 1 <= |piece| <= 2
  {
    var low: int, high: int := piece[0], if |piece| == 1 then 0 else 1 + piece[1] as int;
    low + 256 * high
  }

  lemma NumberingId(piece: seq<Byte>)
    requires 1 <= |piece| <= 2
    ensures TokenId(Numbering(), piece) == Number(piece)
  {
    if |piece| == 1 {
      PaddedId(piece[0], 0, 0);
    } else if piece[1] < 255 {
      PaddedId(piece[0], piece[1] + 1, 0);
    } else {
      PaddedId(piece[0], 0, 1);
    }
  }

  lemma NumberingDiffers(p: seq<Byte>, q: seq<Byte>)
    requires 1 <= |p| <= 2 && 1 <= |q| <= 2 && TokenId(Numbering(), p) == TokenId(Numbering(), q)
    ensures p == q
  {
    NumberingId(p);
    NumberingId(q);
  }

  ghost function PiecesOf(text: seq<Byte>, g: Pos): set<seq<Byte>>
  {
    set i | 0 <= i < |text| && Offset(g, i) < |text| :: Chain.Piece(text, g, i)
  }

  lemma PiecesInOwn(text: seq<Byte>, g: Pos, pieces: set<seq<Byte>>)
    requires PiecesOf(text, g) <= pieces
    ensures PiecesIn(text, g, pieces)
  {
    forall i: nat | Offset(g, i) < |text|
      ensures Chain.Piece(text, g, i) in pieces
    {
      OffsetAtLeast(g, i);
      assert Chain.Piece(text, g, i) in PiecesOf(text, g);
    }
  }

  lemma {:induction false} OffsetAtLeast(d: Pos, i: nat)
    ensures Offset(d, i) >= i
  {
    if i > 0 { OffsetAtLeast(d, i - 1); }
  }

  /** With at most two bytes a piece it tells all texts apart. */
  lemma NumberingIsContentBased(g: Pos, a: seq<Byte>, b: seq<Byte>)
    requires g <= 2 && Tokenize(Numbering(), g, a) == Tokenize(Numbering(), g, b)
    ensures a == b
  {
    var pieces := PiecesOf(a, g) + PiecesOf(b, g);
    PiecesInOwn(a, g, pieces);
    PiecesInOwn(b, g, pieces);
    forall p, q | p in pieces && q in pieces && TokenId(Numbering(), p) == TokenId(Numbering(), q)
      ensures p == q
    {
      NumberingDiffers(p, q);
    }
    SameTokensSameText(Numbering(), g, pieces, a, b);
  }

  /** Different texts with the same tokens. */
  ghost predicate Collides(sha: Sha, g: Pos)
  {
    exists a, b :: a != b && Tokenize(sha, g, a) == Tokenize(sha, g, b)
  }

  /** No hash gives all different texts different tokens exactly when pieces have three bytes or more, as at the default
      of four characters a token. */
  lemma CollisionUnavoidableIff(g: Pos)
    ensures (forall sha: Sha :: Collides(sha, g)) <==> g >= 3
    ensures Granule(4.0) == 4
  {
    if g >= 3 {
      forall sha: Sha
        ensures Collides(sha, g)
      {
        var a, b := DifferentTextSameTokens(sha, g);
      }
    } else {
      forall a, b | Tokenize(Numbering(), g, a) == Tokenize(Numbering(), g, b)
        ensures a == b
      {
        NumberingIsContentBased(g, a, b);
      }
      assert !Collides(Numbering(), g);
    }
  }
}
