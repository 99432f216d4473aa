/** Token simulation, chunking and prefix-chained chunk hashing (src/kvbench/core/tokens.py).

SHA-256 is a parameter: any function from byte strings to 32-byte digests.  Absence of collisions is
never assumed globally; a theorem that needs it asks for it on the finitely many preimages that occur. */
module Tokens {
  import opened Wrappers
  import opened Arith
  import opened Chain

  type Byte = n: int | 0 <= n < 256

  /** What `int.to_bytes(4, "little")` accepts. */
  type Token = n: int | 0 <= n < 0x1_0000_0000

  type Digest = d: seq<Byte> | |d| == 32 witness seq(32, i => 0)

  type Sha = seq<Byte> -> Digest

  const VOCAB: nat := 128256

  // ---------------------------------------------------------------- simulated tokens

  /** Python's `round` on a float: ties go to the even neighbour. */
  function RoundHalfEven(x: real): int
  {
    var f := x.Floor;
    var rest := x - f as real;
    if rest < 0.5 || (rest == 0.5 && f % 2 == 0) then f else f + 1
  }

  function Granule(charsPerToken: real): Pos { Max(1, RoundHalfEven(charsPerToken)) }

  function FromLe4(b: seq<Byte>): Token
    requires |b| == 4
  {
    var b0: int, b1: int, b2: int, b3: int := b[0], b[1], b[2], b[3];
    b0 + 256 * b1 + 65536 * b2 + 16777216 * b3
  }

  function TokenId(sha: Sha, piece: seq<Byte>): Token { FromLe4(sha(piece)[..4]) % VOCAB }

  function TokenOf(sha: Sha): seq<Byte> -> Token { (piece: seq<Byte>) => TokenId(sha, piece) }

  function Tokenize(sha: Sha, g: Pos, text: seq<Byte>): seq<Token> { MapPieces(TokenOf(sha), g, text) }

  lemma TokensInVocab(sha: Sha, g: Pos, text: seq<Byte>)
    ensures forall i | 0 <= i < |Tokenize(sha, g, text)| :: Tokenize(sha, g, text)[i] < VOCAB
  {
    forall i: nat | i < CeilDiv(|text|, g)
      ensures Tokenize(sha, g, text)[i] < VOCAB
    {
      PieceIndex(|text|, g, i);
      assert Tokenize(sha, g, text)[i] == TokenOf(sha)(Piece(text, g, i));
    }
  }

  /** Rounding to the nearest integer, ties to even, and at least 1. */
  lemma GranuleIs(x: real)
    ensures x < 1.5 ==> Granule(x) == 1
    ensures x >= 1.5 ==> -0.5 <= Granule(x) as real - x <= 0.5
    ensures x >= 1.5 && (Granule(x) as real - x == 0.5 || Granule(x) as real - x == -0.5) ==> Granule(x) % 2 == 0
  {
  }

  /** t is the little-endian number in the first four digest bytes of the piece, modulo the vocabulary. */
  predicate IsTokenOf(sha: Sha, piece: seq<Byte>, t: int)
  {
    var d := sha(piece);
    var b0: int, b1: int, b2: int, b3: int := d[0], d[1], d[2], d[3];
    t == (b0 + 256 * b1 + 65536 * b2 + 16777216 * b3) % 128256
  }

  lemma TokenIdIs(sha: Sha, piece: seq<Byte>)
    ensures IsTokenOf(sha, piece, TokenId(sha, piece))
  {
  }

  /** `text[i * g : i * g + g]`. */
  function Granules(text: seq<Byte>, g: Pos, i: nat): seq<Byte>
  {
    text[Min(i * g, |text|)..Min(i * g + g, |text|)]
  }

  /** The text has an i-th piece, and t is its token. */
  predicate TokenStands(sha: Sha, g: Pos, text: seq<Byte>, i: nat, t: int)
  {
    i * g < |text| && IsTokenOf(sha, Granules(text, g, i), t)
  }

  /** One token for each piece, the number its digest gives. */
  predicate TokensStand(sha: Sha, g: Pos, text: seq<Byte>, tokens: seq<Token>)
  {
    && |tokens| == (|text| + g - 1) / g
    && forall i: nat {:trigger tokens[i]} | i < |tokens| :: TokenStands(sha, g, text, i, tokens[i])
  }

  lemma TokenizeAt(sha: Sha, g: Pos, text: seq<Byte>, i: nat)
    requires i < |Tokenize(sha, g, text)|
    ensures TokenStands(sha, g, text, i, Tokenize(sha, g, text)[i])
  {
    PieceIndex(|text|, g, i);
    OffsetAgrees(g, i);
    var piece := Piece(text, g, i);
    assert piece == Granules(text, g, i);
    TokenIdIs(sha, piece);
    hide IsTokenOf;
    assert Tokenize(sha, g, text)[i] == TokenOf(sha)(piece);
  }

  lemma TokenizeIs(sha: Sha, g: Pos, text: seq<Byte>)
    ensures TokensStand(sha, g, text, Tokenize(sha, g, text))
  {
    hide TokenStands;
    DivModAgree(|text| + g - 1, g);
    var tokens := Tokenize(sha, g, text);
    forall i: nat {:trigger tokens[i]} | i < |tokens|
      ensures TokenStands(sha, g, text, i, tokens[i])
    {
      TokenizeAt(sha, g, text, i);
    }
  }

  // ---------------------------------------------------------------- bytes and hex

  function HexChar(n: int): char
    requires 0 <= n < 16
  {
    if n < 10 then (48 + n) as char else (87 + n) as char
  }

  predicate IsHexChar(c: char) { '0' <= c <= '9' || 'a' <= c <= 'f' }

  predicate IsHash(s: string) { |s| == 64 && forall i | 0 <= i < 64 :: IsHexChar(s[i]) }

  /** `hexdigest`: two lower-case hex characters a byte. */
  function Hex(d: Digest): (s: string)
    ensures IsHash(s)
  {
    seq(64, i requires 0 <= i < 64 => HexChar(if i % 2 == 0 then d[i / 2] / 16 else d[i / 2] % 16))
  }

  lemma HexInjective(a: Digest, b: Digest)
    requires Hex(a) == Hex(b)
    ensures a == b
  {
    forall i: nat | i < 32
      ensures a[i] == b[i]
    {
      assert Hex(a)[2 * i] == HexChar(a[i] / 16) && Hex(a)[2 * i + 1] == HexChar(a[i] % 16);
      assert Hex(b)[2 * i] == HexChar(b[i] / 16) && Hex(b)[2 * i + 1] == HexChar(b[i] % 16);
    }
  }

  /** What a character is worth as a base 16 digit. */
  function HexValue(c: char): int { if c <= '9' then c as int - '0' as int else c as int - 'a' as int + 10 }

  /** Read as base 16 digits, high half first, the characters give the digest back. */
  lemma HexReadsBack(d: Digest, i: nat)
    requires i < 32
    ensures 16 * HexValue(Hex(d)[2 * i]) + HexValue(Hex(d)[2 * i + 1]) == d[i]
    ensures 0 <= HexValue(Hex(d)[2 * i]) < 16 && 0 <= HexValue(Hex(d)[2 * i + 1]) < 16
  {
    assert Hex(d)[2 * i] == HexChar(d[i] / 16) && Hex(d)[2 * i + 1] == HexChar(d[i] % 16);
  }

  lemma HexSpells(d: Digest)
    ensures forall i {:trigger d[i]} | 0 <= i < 32 ::
      16 * HexValue(Hex(d)[2 * i]) + HexValue(Hex(d)[2 * i + 1]) == d[i]
  {
    forall i {:trigger d[i]} | 0 <= i < 32
      ensures 16 * HexValue(Hex(d)[2 * i]) + HexValue(Hex(d)[2 * i + 1]) == d[i]
    {
      HexReadsBack(d, i);
    }
  }

  predicate IsAscii(s: string) { forall i | 0 <= i < |s| :: s[i] < 128 as char }

  function Ascii(s: string): (b: seq<Byte>)
    requires IsAscii(s)
    ensures |b| == |s|
  {
    seq(|s|, i requires 0 <= i < |s| => s[i] as int)
  }

  function FromAscii(b: seq<Byte>): string { seq(|b|, i requires 0 <= i < |b| => b[i] as char) }

  /** Byte k of `t.to_bytes(4, "little")`. */
  function LeByte(t: Token, k: nat): Byte
    requires k < 4
  {
    if k == 0 then t % 256 else if k == 1 then t / 256 % 256 else if k == 2 then t / 65536 % 256 else t / 16777216
  }

  function TokenBytes(tokens: seq<Token>): (b: seq<Byte>)
    ensures |b| == 4 * |tokens|
  {
    seq(4 * |tokens|, i requires 0 <= i < 4 * |tokens| => LeByte(tokens[i / 4], i % 4))
  }

  function FromTokenBytes(b: seq<Byte>): seq<Token>
  {
    seq(|b| / 4, i requires 0 <= i < |b| / 4 => FromLe4(b[4 * i..4 * i + 4]))
  }

  lemma TokenBytesRoundTrip(tokens: seq<Token>)
    ensures FromTokenBytes(TokenBytes(tokens)) == tokens
  {
    var b := TokenBytes(tokens);
    forall i: nat | i < |tokens|
      ensures FromLe4(b[4 * i..4 * i + 4]) == tokens[i]
    {
      var t := tokens[i];
      LeBytesSum(t);
      assert b[4 * i..4 * i + 4] == [LeByte(t, 0), LeByte(t, 1), LeByte(t, 2), LeByte(t, 3)];
    }
  }

  lemma LeBytesSum(t: Token)
    ensures FromLe4([LeByte(t, 0), LeByte(t, 1), LeByte(t, 2), LeByte(t, 3)]) == t
  {
    assert t / 256 / 256 == t / 65536 && t / 65536 / 256 == t / 16777216;
  }

  // ---------------------------------------------------------------- chunk hash preimages

  /** The bytes `compute_chunk_hash` feeds the hasher: the parent's hex characters, then 4 bytes a token. */
  function Preimage(parent: Option<string>, tokens: seq<Token>): seq<Byte>
    requires parent.Some? ==> IsAscii(parent.value)
  {
    (if parent.Some? then Ascii(parent.value) else []) + TokenBytes(tokens)
  }

  function ChunkHash(sha: Sha, tokens: seq<Token>, parent: Option<string>): (h: string)
    requires parent.Some? ==> IsAscii(parent.value)
    ensures IsHash(h)
  {
    Hex(sha(Preimage(parent, tokens)))
  }

  /** The four bytes from k on are the token, the lowest first. */
  predicate SpellsToken(b: seq<Byte>, k: nat, t: Token)
  {
    && k + 4 <= |b|
    && var b0: int, b1: int, b2: int, b3: int := b[k], b[k + 1], b[k + 2], b[k + 3];
       t == b0 + 256 * b1 + 65536 * b2 + 16777216 * b3
  }

  /** From p on, four bytes for each token in order. */
  predicate SpellsTokens(b: seq<Byte>, p: nat, tokens: seq<Token>)
  {
    && |b| == p + 4 * |tokens|
    && forall i: nat {:trigger tokens[i]} | i < |tokens| :: SpellsToken(b, p + 4 * i, tokens[i])
  }

  /** Byte by byte: the parent's character codes first, then the tokens. */
  lemma PreimageIs(parent: Option<string>, tokens: seq<Token>)
    requires parent.Some? ==> IsAscii(parent.value)
    ensures var p := if parent.Some? then |parent.value| else 0;
      && SpellsTokens(Preimage(parent, tokens), p, tokens)
      && forall k | 0 <= k < p :: Preimage(parent, tokens)[k] == parent.value[k] as int
  {
    SpelledAll(if parent.Some? then Ascii(parent.value) else [], tokens);
  }

  lemma SpelledAll(before: seq<Byte>, tokens: seq<Token>)
    ensures SpellsTokens(before + TokenBytes(tokens), |before|, tokens)
  {
    hide SpellsToken, TokenBytes;
    forall i: nat {:trigger tokens[i]} | i < |tokens|
      ensures SpellsToken(before + TokenBytes(tokens), |before| + 4 * i, tokens[i])
    {
      TokenBytesAt(tokens, i);
      SpelledAfter(before, TokenBytes(tokens), 4 * i, tokens[i]);
    }
  }

  lemma SpelledAfter(before: seq<Byte>, b: seq<Byte>, k: nat, t: Token)
    requires SpellsToken(b, k, t)
    ensures SpellsToken(before + b, |before| + k, t)
  {
  }

  lemma TokenBytesAt(tokens: seq<Token>, i: nat)
    requires i < |tokens|
    ensures SpellsToken(TokenBytes(tokens), 4 * i, tokens[i])
  {
    var b, t := TokenBytes(tokens), tokens[i];
    LeBytesSum(t);
    assert b[4 * i] == LeByte(t, 0) && b[4 * i + 1] == LeByte(t, 1);
    assert b[4 * i + 2] == LeByte(t, 2) && b[4 * i + 3] == LeByte(t, 3);
  }

  predicate IsParent(parent: Option<string>) { parent.Some? ==> IsHash(parent.value) }

  predicate TopByteZero(tokens: seq<Token>) { forall i | 0 <= i < |tokens| :: tokens[i] < 0x100_0000 }

  /** Reads a preimage back: byte 3 is the zero top byte of a token, or a hex character of a parent hash. */
  function DecodePreimage(b: seq<Byte>): (Option<string>, seq<Token>)
  {
    if |b| >= 64 && b[3] != 0 then (Some(FromAscii(b[..64])), FromTokenBytes(b[64..]))
    else (None, FromTokenBytes(b))
  }

  /** The preimage is unambiguous for every token whose top byte is zero, so for every token below VOCAB. */
  lemma PreimageRoundTrip(parent: Option<string>, tokens: seq<Token>)
    requires IsParent(parent) && TopByteZero(tokens)
    ensures DecodePreimage(Preimage(parent, tokens)) == (parent, tokens)
  {
    TokenBytesRoundTrip(tokens);
    match parent
    case Some(h) => SplitParent(h, TokenBytes(tokens));
    case None => FirstTopByte(tokens);
  }

  lemma SplitParent(h: string, rest: seq<Byte>)
    requires IsHash(h)
    ensures (Ascii(h) + rest)[..64] == Ascii(h) && (Ascii(h) + rest)[64..] == rest && FromAscii(Ascii(h)) == h
    ensures (Ascii(h) + rest)[3] != 0
  {
  }

  lemma FirstTopByte(tokens: seq<Token>)
    requires TopByteZero(tokens)
    ensures |tokens| > 0 ==> TokenBytes(tokens)[3] == 0
    ensures Preimage(None, tokens) == TokenBytes(tokens)
  {
  }

  lemma PreimageInjective(p: Option<string>, s: seq<Token>, q: Option<string>, t: seq<Token>)
    requires IsParent(p) && TopByteZero(s) && IsParent(q) && TopByteZero(t)
    requires Preimage(p, s) == Preimage(q, t)
    ensures p == q && s == t
  {
    PreimageRoundTrip(p, s);
    PreimageRoundTrip(q, t);
  }

  /** Outside that range it is ambiguous, and exactly so: a parentless chunk shares its preimage with a
      chained one if and only if its first 16 tokens spell 64 hex characters. */
  lemma PreimageAmbiguousExactlyWhen(tokens: seq<Token>)
    ensures (exists h, rest :: Ambiguous(tokens, h, rest))
       <==> (|tokens| >= 16 && IsHash(FromAscii(TokenBytes(tokens)[..64])))
  {
    if h, rest :| Ambiguous(tokens, h, rest) {
      AmbiguousSpellsParent(tokens, h, rest);
    }
    if |tokens| >= 16 && IsHash(FromAscii(TokenBytes(tokens)[..64])) {
      SpelledParentIsAmbiguous(tokens);
    }
  }

  predicate Ambiguous(tokens: seq<Token>, h: string, rest: seq<Token>)
  {
    IsHash(h) && Preimage(None, tokens) == Preimage(Some(h), rest)
  }

  lemma AmbiguousSpellsParent(tokens: seq<Token>, h: string, rest: seq<Token>)
    requires Ambiguous(tokens, h, rest)
    ensures |tokens| >= 16 && FromAscii(TokenBytes(tokens)[..64]) == h
  {
    var b := TokenBytes(tokens);
    assert Preimage(None, tokens) == b;
    assert |Preimage(Some(h), rest)| == 64 + 4 * |rest|;
    assert b[..64] == Ascii(h);
    assert FromAscii(Ascii(h)) == h;
  }

  lemma SpelledParentIsAmbiguous(tokens: seq<Token>)
    requires |tokens| >= 16 && IsHash(FromAscii(TokenBytes(tokens)[..64]))
    ensures Ambiguous(tokens, FromAscii(TokenBytes(tokens)[..64]), tokens[16..])
  {
    var b := TokenBytes(tokens);
    var h := FromAscii(b[..64]);
    assert Ascii(h) == b[..64];
    assert TokenBytes(tokens[16..]) == b[64..];
    assert b == b[..64] + b[64..];
    assert Preimage(None, tokens) == b;
  }

  lemma FromTokenBytesRoundTrip(b: seq<Byte>)
    requires |b| % 4 == 0
    ensures TokenBytes(FromTokenBytes(b)) == b
  {
    var tokens := FromTokenBytes(b);
    forall i: nat | i < |b|
      ensures TokenBytes(tokens)[i] == b[i]
    {
      assert tokens[i / 4] == FromLe4(b[4 * (i / 4)..4 * (i / 4) + 4]);
      LeBytesOf(b[4 * (i / 4)..4 * (i / 4) + 4], i % 4);
    }
  }

  lemma LeBytesOf(b: seq<Byte>, k: nat)
    requires |b| == 4 && k < 4
    ensures LeByte(FromLe4(b), k) == b[k]
  {
    Base256(b[0], b[1], b[2], b[3]);
  }

  lemma Base256(b0: Byte, b1: Byte, b2: Byte, b3: Byte)
    ensures var t: int := b0 + 256 * b1 + 65536 * b2 + 16777216 * b3;
      t % 256 == b0 && t / 256 % 256 == b1 && t / 65536 % 256 == b2 && t / 16777216 == b3
  {
    var b: int, c: int, d: int, e: int := b0, b1, b2, b3;
    var t: int := b + 256 * c + 65536 * d + 16777216 * e;
    assert t / 256 == c + 256 * d + 65536 * e;
    assert t / 65536 == d + 256 * e;
    assert t / 16777216 == e;
  }

  lemma TokenBytesAppend(s: seq<Token>, t: seq<Token>)
    ensures TokenBytes(s + t) == TokenBytes(s) + TokenBytes(t)
  {
  }

  /** The parentless tokens whose bytes are those of a chained chunk. */
  function Spelled(h: string, rest: seq<Token>): seq<Token>
    requires IsHash(h)
  {
    FromTokenBytes(Ascii(h)) + rest
  }

  lemma SpelledIsAmbiguous(h: string, rest: seq<Token>)
    requires IsHash(h)
    ensures |Spelled(h, rest)| == 16 + |rest| && Ambiguous(Spelled(h, rest), h, rest)
  {
    var a := Ascii(h);
    FromTokenBytesRoundTrip(a);
    TokenBytesAppend(FromTokenBytes(a), rest);
    hide Ascii, TokenBytes, IsHash;
    assert Preimage(None, Spelled(h, rest)) == TokenBytes(Spelled(h, rest));
  }

  /** Among chunks of at most cs arbitrary tokens, a chained chunk shares its preimage with a parentless one if and only
      if it leaves room for the 16 tokens that spell its parent. */
  lemma ChainedAmbiguousExactlyWhen(cs: Pos, h: string, rest: seq<Token>)
    requires IsHash(h)
    ensures (exists tokens :: |tokens| <= cs && Ambiguous(tokens, h, rest)) <==> |rest| + 16 <= cs
  {
    if tokens :| |tokens| <= cs && Ambiguous(tokens, h, rest) {
      assert |Preimage(None, tokens)| == 4 * |tokens| && |Preimage(Some(h), rest)| == 64 + 4 * |rest|;
    }
    SpelledIsAmbiguous(h, rest);
  }

  /** Chunks that are both chained, or both parentless, never share one, whatever their tokens. */
  lemma SameKindInjective(p: Option<string>, s: seq<Token>, q: Option<string>, t: seq<Token>)
    requires IsParent(p) && IsParent(q) && p.Some? == q.Some?
    ensures Preimage(p, s) == Preimage(q, t) <==> p == q && s == t
  {
    if Preimage(p, s) == Preimage(q, t) {
      TokenBytesRoundTrip(s);
      TokenBytesRoundTrip(t);
      if p.Some? {
        SplitParent(p.value, TokenBytes(s));
        SplitParent(q.value, TokenBytes(t));
      } else {
        assert Preimage(None, s) == TokenBytes(s) && Preimage(None, t) == TokenBytes(t);
      }
    }
  }

  // ---------------------------------------------------------------- prefix-chained hashes

  /** `compute_chunk_hash` as a link function.  A parent that is not ASCII, on which the source's `encode`
      raises, never occurs in a chain; it is given the empty string. */
  function Hasher(sha: Sha): Link<Token, string> -> string
  {
    (l: Link<Token, string>) =>
      if l.parent.Some? && !IsAscii(l.parent.value) then "" else ChunkHash(sha, l.piece, l.parent)
  }

  predicate CleanLink(l: Link<Token, string>) { IsParent(l.parent) && TopByteZero(l.piece) }

  /** No two of these preimages have the same digest. */
  ghost predicate CollisionFree(sha: Sha, preimages: set<seq<Byte>>)
  {
    forall x, y | x in preimages && y in preimages && sha(x) == sha(y) :: x == y
  }

  ghost function PreimagesOf(links: set<Link<Token, string>>): set<seq<Byte>>
  {
    set l | l in links && CleanLink(l) :: Preimage(l.parent, l.piece)
  }

  /** Collision-free digests make the chunk hash injective on the links hashed. */
  lemma HasherInjective(sha: Sha, links: set<Link<Token, string>>)
    requires forall l | l in links :: CleanLink(l)
    requires CollisionFree(sha, PreimagesOf(links))
    ensures InjectiveOn(Hasher(sha), links)
  {
    forall l, m | l in links && m in links && Hasher(sha)(l) == Hasher(sha)(m)
      ensures l == m
    {
      var x, y := Preimage(l.parent, l.piece), Preimage(m.parent, m.piece);
      assert x in PreimagesOf(links) && y in PreimagesOf(links);
      HexInjective(sha(x), sha(y));
      PreimageInjective(l.parent, l.piece, m.parent, m.piece);
    }
  }

  /** Every link of a sequence. */
  function Links(sha: Sha, cs: Pos, tokens: seq<Token>): set<Link<Token, string>>
  {
    set i | 0 <= i < CeilDiv(|tokens|, cs) :: PieceIndex(|tokens|, cs, i); LinkAt(Hasher(sha), cs, tokens, i)
  }

  lemma LinksCover(sha: Sha, cs: Pos, tokens: seq<Token>, links: set<Link<Token, string>>)
    requires Links(sha, cs, tokens) <= links
    ensures LinksIn(Hasher(sha), cs, tokens, links)
  {
    forall i: nat {:trigger LinkAt(Hasher(sha), cs, tokens, i)} | Offset(cs, i) < |tokens|
      ensures LinkAt(Hasher(sha), cs, tokens, i) in links
    {
      PieceIndex(|tokens|, cs, i);
      assert LinkAt(Hasher(sha), cs, tokens, i) in Links(sha, cs, tokens);
    }
  }

  lemma HasherIsHash(sha: Sha, l: Link<Token, string>)
    requires IsParent(l.parent)
    ensures IsHash(Hasher(sha)(l))
  {
  }

  lemma {:induction false} ParentIsHash(sha: Sha, cs: Pos, tokens: seq<Token>, i: nat)
    requires Offset(cs, i) < |tokens|
    ensures IsParent(LinkAt(Hasher(sha), cs, tokens, i).parent)
  {
    if i > 0 {
      ParentIsHash(sha, cs, tokens, i - 1);
      HasherIsHash(sha, LinkAt(Hasher(sha), cs, tokens, i - 1));
    }
  }

  lemma LinkClean(sha: Sha, cs: Pos, tokens: seq<Token>, i: nat)
    requires TopByteZero(tokens) && Offset(cs, i) < |tokens|
    ensures CleanLink(LinkAt(Hasher(sha), cs, tokens, i))
  {
  }

  lemma LinksClean(sha: Sha, cs: Pos, tokens: seq<Token>)
    requires TopByteZero(tokens)
    ensures forall l | l in Links(sha, cs, tokens) :: CleanLink(l)
  {
    forall l | l in Links(sha, cs, tokens)
      ensures CleanLink(l)
    {
      var i :| 0 <= i < CeilDiv(|tokens|, cs) && (PieceIndex(|tokens|, cs, i); l == LinkAt(Hasher(sha), cs, tokens, i));
      PieceIndex(|tokens|, cs, i);
      LinkClean(sha, cs, tokens, i);
    }
  }

  /** A chunk hash identifies the whole prefix it ends.  For tokens with a zero top byte, and absent digest
      collisions among the preimages of the two sequences, the hashes of chunk i of a and chunk j of b are
      equal exactly when i = j and the sequences agree on every token up to the end of that chunk. */
  lemma ChunkHashIdentifiesPrefix(sha: Sha, cs: Pos, a: seq<Token>, i: nat, b: seq<Token>, j: nat)
    requires Offset(cs, i) < |a| && Offset(cs, j) < |b| && TopByteZero(a) && TopByteZero(b)
    requires CollisionFree(sha, PreimagesOf(Links(sha, cs, a) + Links(sha, cs, b)))
    ensures HashAt(Hasher(sha), cs, a, i) == HashAt(Hasher(sha), cs, b, j)
       <==> (i == j && a[..PieceEnd(a, cs, i)] == b[..PieceEnd(b, cs, j)])
  {
    var links := Links(sha, cs, a) + Links(sha, cs, b);
    LinksClean(sha, cs, a);
    LinksClean(sha, cs, b);
    HasherInjective(sha, links);
    LinksCover(sha, cs, a, links);
    LinksCover(sha, cs, b, links);
    HashIdentifiesPrefix(Hasher(sha), links, cs, a, i, b, j);
  }

  // ---------------------------------------------------------------- the processor

  datatype TokenChunk = TokenChunk(tokens: seq<Token>, chunkIndex: nat, chunkHash: string,
                                   startPosition: nat, isFull: bool)

  class TokenProcessor {
    const chunkSize: Pos
    const sha: Sha

    /** The source raises ValueError for a chunk size below 1. */
    constructor (chunkSize: int, sha: Sha)
      requires chunkSize >= 1
      ensures this.chunkSize == chunkSize && this.sha == sha
    {
      this.chunkSize := chunkSize;
      this.sha := sha;
    }

    method SimulateTokenize(text: seq<Byte>, charsPerToken: real) returns (tokens: seq<Token>)
      ensures tokens == Tokenize(sha, Granule(charsPerToken), text)
      ensures TokensStand(sha, Granule(charsPerToken), text, tokens)
    {
      hide TokensStand;
      TokenizeIs(sha, Granule(charsPerToken), text);
      tokens := [];
      if text == [] { return; }
      var granule := Granule(charsPerToken);
      var i := 0;
      ghost var k := 0;
      while i < |text|
        invariant i == Offset(granule, k) && k <= CeilDiv(|text|, granule)
        invariant tokens == Tokenize(sha, granule, text)[..k]
        decreases |text| - i
      {
        PieceIndex(|text|, granule, k);
        var piece := text[i..Min(i + granule, |text|)];
        var digest := sha(piece);
        var tokenId := FromLe4(digest[..4]) % 128256;
        assert Tokenize(sha, granule, text)[k] == TokenOf(sha)(Piece(text, granule, k));
        tokens := tokens + [tokenId];
        i := i + granule;
        k := k + 1;
      }
      PieceIndex(|text|, granule, k);
    }

    method ChunkTokens(tokens: seq<Token>) returns (chunks: seq<seq<Token>>)
      ensures |chunks| == CeilDiv(|tokens|, chunkSize)
      ensures ArePieces(chunks, tokens, chunkSize)
      ensures Concat(chunks) == tokens
      ensures forall i {:trigger chunks[i]} | 0 <= i < |chunks| :: 1 <= |chunks[i]| <= chunkSize
      ensures forall i {:trigger chunks[i]} | 0 <= i < |chunks| - 1 :: |chunks[i]| == chunkSize
    {
      chunks := [];
      if tokens == [] { return; }
      var i := 0;
      while i < |tokens|
        invariant i == Offset(chunkSize, |chunks|) && |chunks| <= CeilDiv(|tokens|, chunkSize)
        invariant ArePieces(chunks, tokens, chunkSize)
        decreases |tokens| - i
      {
        var chunk := tokens[i..Min(i + chunkSize, |tokens|)];
        PieceIndex(|tokens|, chunkSize, |chunks|);
        assert chunk == Piece(tokens, chunkSize, |chunks|);
        PiecesAppend(chunks, tokens, chunkSize);
        chunks := chunks + [chunk];
        i := i + chunkSize;
      }
      PieceIndex(|tokens|, chunkSize, |chunks|);
      PiecesCover(tokens, chunkSize, chunks);
      forall i {:trigger chunks[i]} | 0 <= i < |chunks|
        ensures 1 <= |chunks[i]| <= chunkSize && (i < |chunks| - 1 ==> |chunks[i]| == chunkSize)
      {
        PieceSizes(chunks, tokens, chunkSize, i);
      }
    }

    predicate ChunkIs(chunk: TokenChunk, tokens: seq<Token>, i: nat)
    {
      && Offset(chunkSize, i) < |tokens|
      && chunk == TokenChunk(Piece(tokens, chunkSize, i), i, HashAt(Hasher(sha), chunkSize, tokens, i),
                             Offset(chunkSize, i), Offset(chunkSize, i) + chunkSize <= |tokens|)
    }

    /** One turn of the loop below: the chunk at start, hashed on top of its parent. */
    method MakeChunk(tokens: seq<Token>, i: nat, start: nat, parentHash: Option<string>) returns (chunk: TokenChunk)
      requires start == Offset(chunkSize, i) < |tokens|
      requires parentHash == if i == 0 then None else Some(HashAt(Hasher(sha), chunkSize, tokens, i - 1))
      ensures ChunkIs(chunk, tokens, i)
    {
      ParentIsHash(sha, chunkSize, tokens, i);
      var chunkTokens := tokens[start..Min(start + chunkSize, |tokens|)];
      var chunkHash := ComputeChunkHash(chunkTokens, parentHash);
      assert Link(parentHash, chunkTokens) == LinkAt(Hasher(sha), chunkSize, tokens, i);
      chunk := TokenChunk(chunkTokens, i, chunkHash, start, |chunkTokens| == chunkSize);
    }

    predicate AllChunks(chunks: seq<TokenChunk>, tokens: seq<Token>)
    {
      forall i: nat {:trigger chunks[i]} | i < |chunks| :: ChunkIs(chunks[i], tokens, i)
    }

    lemma AllChunksAppend(chunks: seq<TokenChunk>, tokens: seq<Token>, chunk: TokenChunk)
      requires AllChunks(chunks, tokens) && ChunkIs(chunk, tokens, |chunks|)
      ensures AllChunks(chunks + [chunk], tokens)
    {
    }

    /** Field by field: a chunk is the slice at i * chunk_size, hashed on top of the chunk before it. */
    lemma ChunkFields(chunks: seq<TokenChunk>, tokens: seq<Token>, i: nat)
      requires AllChunks(chunks, tokens) && i < |chunks|
      ensures var c, parent := chunks[i], if i == 0 then None else Some(chunks[i - 1].chunkHash);
        && c.chunkIndex == i && c.startPosition == i * chunkSize < |tokens|
        && c.tokens == tokens[c.startPosition..Min(c.startPosition + chunkSize, |tokens|)]
        && (c.isFull <==> |c.tokens| == chunkSize)
        && (parent.Some? ==> IsHash(parent.value)) && c.chunkHash == Hex(sha(Preimage(parent, c.tokens)))
    {
      assert ChunkIs(chunks[i], tokens, i);
      OffsetAgrees(chunkSize, i);
      ParentIsHash(sha, chunkSize, tokens, i);
      if i > 0 { assert ChunkIs(chunks[i - 1], tokens, i - 1); }
    }

    method ChunkTokensWithMetadata(tokens: seq<Token>) returns (chunks: seq<TokenChunk>)
      ensures |chunks| == CeilDiv(|tokens|, chunkSize) && AllChunks(chunks, tokens)
    {
      chunks := [];
      if tokens == [] { return; }
      var parentHash: Option<string> := None;
      var i, start := 0, 0;
      while start < |tokens|
        invariant i == |chunks| && start == Offset(chunkSize, i) && i <= CeilDiv(|tokens|, chunkSize)
        invariant i > 0 ==> Offset(chunkSize, i - 1) < |tokens|
        invariant parentHash == if i == 0 then None else Some(HashAt(Hasher(sha), chunkSize, tokens, i - 1))
        invariant AllChunks(chunks, tokens)
        decreases |tokens| - start
      {
        PieceIndex(|tokens|, chunkSize, i);
        var chunk := MakeChunk(tokens, i, start, parentHash);
        AllChunksAppend(chunks, tokens, chunk);
        chunks := chunks + [chunk];
        parentHash := Some(chunk.chunkHash);
        i, start := i + 1, start + chunkSize;
      }
      PieceIndex(|tokens|, chunkSize, i);
    }

    method ComputeChunkHash(tokens: seq<Token>, prefixHash: Option<string>) returns (h: string)
      requires prefixHash.Some? ==> IsAscii(prefixHash.value)
      ensures h == ChunkHash(sha, tokens, prefixHash)
      ensures forall i {:trigger sha(Preimage(prefixHash, tokens))[i]} | 0 <= i < 32 ::
        16 * HexValue(h[2 * i]) + HexValue(h[2 * i + 1]) == sha(Preimage(prefixHash, tokens))[i]
    {
      var fed: seq<Byte> := [];
      if prefixHash.Some? {
        fed := Ascii(prefixHash.value);
      }
      ghost var parent := fed;
      for n := 0 to |tokens|
        invariant fed == parent + TokenBytes(tokens[..n])
      {
        var t := tokens[n];
        var bytes := [LeByte(t, 0), LeByte(t, 1), LeByte(t, 2), LeByte(t, 3)];
        assert TokenBytes(tokens[..n + 1]) == TokenBytes(tokens[..n]) + bytes;
        fed := fed + bytes;
      }
      assert tokens[..|tokens|] == tokens;
      h := Hex(sha(fed));
      HexSpells(sha(fed));
    }

    method FindPrefixMatch(tokens: seq<Token>, cachedHashes: set<string>)
      returns (matchedTokens: nat, matchedHashes: seq<string>)
      ensures IsPrefixMatch(Hasher(sha), chunkSize, tokens, cachedHashes, matchedTokens, matchedHashes)
    {
      matchedTokens, matchedHashes := 0, [];
      if tokens == [] || cachedHashes == {} { return; }
      var chunks := ChunkTokensWithMetadata(tokens);
      var n := 0;
      while n < |chunks|
        invariant n <= |chunks| && |matchedHashes| == n
        invariant matchedTokens == Min(Offset(chunkSize, n), |tokens|)
        invariant AllMatched(Hasher(sha), chunkSize, tokens, cachedHashes, matchedHashes)
      {
        assert ChunkIs(chunks[n], tokens, n);
        if chunks[n].chunkHash in cachedHashes {
          matchedTokens := matchedTokens + |chunks[n].tokens|;
          matchedHashes := matchedHashes + [chunks[n].chunkHash];
        } else {
          // Stop at the first miss.
          return;
        }
        n := n + 1;
      }
      PieceIndex(|tokens|, chunkSize, n);
    }
  }
}
