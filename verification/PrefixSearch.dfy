/** Two searches for the longest cached prefix agree.

`find_prefix_match` (src/kvbench/core/tokens.py) scans up over chained chunk hashes and stops at the first
miss; the stack's `_hit_length` (tests/fakes.py) scans down over a set of prefixes from the longest.  After
any history of stores both find the same length. */
module PrefixSearch {
  import opened Arith
  import opened Chain
  import opened PrefixStack
  import opened Tokens

  /** The cached prefixes after a history of stores. */
  function PrefixesAfter<T(==)>(cs: Pos, history: seq<seq<T>>): set<seq<T>>
  {
    if history == [] then {} else PrefixesAfter(cs, history[..|history| - 1]) + PrefixesOf(cs, history[|history| - 1])
  }

  /** The chained hashes of a sequence's full chunks. */
  function FullHashes<T, D(==)>(h: Link<T, D> -> D, cs: Pos, s: seq<T>): set<D>
  {
    set i | 0 <= i < Div(|s|, cs) :: WholePiece(|s|, cs, i); HashAt(h, cs, s, i)
  }

  /** The stored full-chunk hashes after a history of stores. */
  function HashesAfter<T, D(==)>(h: Link<T, D> -> D, cs: Pos, history: seq<seq<T>>): set<D>
  {
    if history == [] then {}
    else HashesAfter(h, cs, history[..|history| - 1]) + FullHashes(h, cs, history[|history| - 1])
  }

  lemma {:induction false} PrefixesAfterClosed<T>(cs: Pos, history: seq<seq<T>>)
    ensures Closed(cs, PrefixesAfter(cs, history))
  {
    if history != [] {
      var n := |history| - 1;
      PrefixesAfterClosed(cs, history[..n]);
      StoreKeepsClosed(cs, PrefixesAfter(cs, history[..n]), history[n]);
    }
  }

  lemma WholeChunkOf<T, D>(h: Link<T, D> -> D, cs: Pos, s: seq<T>, d: D) returns (j: nat)
    requires d in FullHashes(h, cs, s)
    ensures Offset(cs, j) + cs <= |s| && d == HashAt(h, cs, s, j)
  {
    j :| j < Div(|s|, cs) && (WholePiece(|s|, cs, j); d == HashAt(h, cs, s, j));
    WholePiece(|s|, cs, j);
  }

  lemma StoredHashIsPrefix<T, D>(h: Link<T, D> -> D, links: set<Link<T, D>>, cs: Pos, s: seq<T>, tokens: seq<T>, i: nat)
    requires Offset(cs, i) < |tokens|
    requires InjectiveOn(h, links) && LinksIn(h, cs, s, links) && LinksIn(h, cs, tokens, links)
    requires HashAt(h, cs, tokens, i) in FullHashes(h, cs, s)
    ensures Offset(cs, i) + cs <= |tokens| && tokens[..Offset(cs, i) + cs] in PrefixesOf(cs, s)
  {
    var j := WholeChunkOf(h, cs, s, HashAt(h, cs, tokens, i));
    SameHashSamePrefix(h, links, cs, tokens, i, s, j);
    WholeHeads(cs, tokens, s, i);
    WholeHeadCached(cs, s, i);
  }

  lemma WholeHeads<T>(cs: Pos, a: seq<T>, b: seq<T>, i: nat)
    requires Offset(cs, i) < |a| && Offset(cs, i) + cs <= |b| && a[..PieceEnd(a, cs, i)] == b[..PieceEnd(b, cs, i)]
    ensures Offset(cs, i) + cs <= |a| && a[..Offset(cs, i) + cs] == b[..Offset(cs, i) + cs]
  {
    assert |a[..PieceEnd(a, cs, i)]| == |b[..PieceEnd(b, cs, i)]|;
  }

  lemma WholeHeadCached<T>(cs: Pos, s: seq<T>, i: nat)
    requires Offset(cs, i) + cs <= |s|
    ensures s[..Offset(cs, i) + cs] in PrefixesOf(cs, s)
  {
    OffsetDivMod(cs, i + 1, 0);
    InPrefixes(cs, s, s[..Offset(cs, i) + cs]);
  }

  /** One stored sequence: a chunk's hash is among its full-chunk hashes exactly when the chunk is full and
      the prefix it ends is one of the sequence's cached prefixes. */
  lemma HashInStored<T, D>(h: Link<T, D> -> D, links: set<Link<T, D>>, cs: Pos, s: seq<T>, tokens: seq<T>, i: nat)
    requires Offset(cs, i) < |tokens|
    requires InjectiveOn(h, links) && LinksIn(h, cs, s, links) && LinksIn(h, cs, tokens, links)
    ensures HashAt(h, cs, tokens, i) in FullHashes(h, cs, s)
       <==> (Offset(cs, i) + cs <= |tokens| && tokens[..Offset(cs, i) + cs] in PrefixesOf(cs, s))
  {
    var e := Offset(cs, i) + cs;
    if HashAt(h, cs, tokens, i) in FullHashes(h, cs, s) { StoredHashIsPrefix(h, links, cs, s, tokens, i); }
    if e <= |tokens| && tokens[..e] in PrefixesOf(cs, s) {
      OffsetDivMod(cs, i + 1, 0);
      InPrefixes(cs, s, tokens[..e]);
      WholePiece(|s|, cs, i);
      assert s[..e] == tokens[..e];
      SamePrefixSameHash(h, cs, tokens, s, i);
    }
  }

  ghost predicate HistoryLinksIn<T, D>(h: Link<T, D> -> D, cs: Pos, history: seq<seq<T>>, links: set<Link<T, D>>)
  {
    forall s | s in history :: LinksIn(h, cs, s, links)
  }

  lemma {:induction false} HashInHistory<T, D>(h: Link<T, D> -> D, links: set<Link<T, D>>, cs: Pos,
                                               history: seq<seq<T>>, tokens: seq<T>, i: nat)
    requires Offset(cs, i) < |tokens|
    requires InjectiveOn(h, links) && HistoryLinksIn(h, cs, history, links) && LinksIn(h, cs, tokens, links)
    ensures HashAt(h, cs, tokens, i) in HashesAfter(h, cs, history)
       <==> (Offset(cs, i) + cs <= |tokens| && tokens[..Offset(cs, i) + cs] in PrefixesAfter(cs, history))
  {
    if history != [] {
      var n := |history| - 1;
      HashInHistory(h, links, cs, history[..n], tokens, i);
      HashInStored(h, links, cs, history[n], tokens, i);
    }
  }

  /** Chunk i of tokens is seen alike by a set of chunk hashes and a set of prefixes. */
  predicate SeenAlike<T(==), D(==)>(h: Link<T, D> -> D, cs: Pos, tokens: seq<T>, i: nat, cached: set<D>,
                        prefixes: set<seq<T>>)
    requires Offset(cs, i) < |tokens|
  {
    HashAt(h, cs, tokens, i) in cached <==>
    (Offset(cs, i) + cs <= |tokens| && tokens[..Offset(cs, i) + cs] in prefixes)
  }

  lemma NextMultiple(cs: Pos, r: nat, j: nat)
    requires Offset(cs, r) < j && Mod(j, cs) == 0
    ensures Offset(cs, r) + cs <= j && Mod(Offset(cs, r) + cs, cs) == 0
  {
    OffsetDivMod(cs, r, 0);
    OffsetDivMod(cs, r + 1, 0);
    if j < Offset(cs, r) + cs { NoMultipleBetween(Offset(cs, r), j, cs); }
  }

  /** If the hash of chunk r is not cached, no aligned prefix beyond the first r chunks is. */
  lemma NothingBeyondMiss<T, D>(h: Link<T, D> -> D, cs: Pos, tokens: seq<T>, cached: set<D>, prefixes: set<seq<T>>,
                                r: nat, j: nat)
    requires Closed(cs, prefixes)
    requires Offset(cs, r) < j <= |tokens| && Mod(j, cs) == 0
    requires SeenAlike(h, cs, tokens, r, cached, prefixes) && HashAt(h, cs, tokens, r) !in cached
    ensures tokens[..j] !in prefixes
  {
    NextMultiple(cs, r, j);
    if tokens[..j] in prefixes {
      TruncationCached(cs, prefixes, tokens, j, Offset(cs, r) + cs);
    }
  }

  /** Every upward match is the downward hit. */
  lemma MatchIsHit<T, D>(h: Link<T, D> -> D, cs: Pos, tokens: seq<T>, cached: set<D>, prefixes: set<seq<T>>,
                         matched: nat, hashes: seq<D>)
    requires Closed(cs, prefixes)
    requires hashes != [] && Offset(cs, |hashes| - 1) < |tokens| ==>
      SeenAlike(h, cs, tokens, |hashes| - 1, cached, prefixes)
    requires Offset(cs, |hashes|) < |tokens| ==> SeenAlike(h, cs, tokens, |hashes|, cached, prefixes)
    requires IsPrefixMatch(h, cs, tokens, cached, matched, hashes)
    ensures IsHit(cs, prefixes, tokens, matched)
    ensures matched == Offset(cs, |hashes|)
  {
    var r := |hashes|;
    if r > 0 { assert MatchedAt(h, cs, tokens, cached, r - 1, hashes[r - 1]); }
    OffsetDivMod(cs, r, 0);
    forall j: nat {:trigger tokens[..j]} | matched < j <= |tokens| && Mod(j, cs) == 0
      ensures tokens[..j] !in prefixes
    {
      NothingBeyondMiss(h, cs, tokens, cached, prefixes, r, j);
    }
  }

  lemma SeenInHistory<T, D>(h: Link<T, D> -> D, links: set<Link<T, D>>, cs: Pos, history: seq<seq<T>>, tokens: seq<T>,
                            i: nat)
    requires InjectiveOn(h, links) && HistoryLinksIn(h, cs, history, links) && LinksIn(h, cs, tokens, links)
    ensures Offset(cs, i) < |tokens| ==>
      SeenAlike(h, cs, tokens, i, HashesAfter(h, cs, history), PrefixesAfter(cs, history))
  {
    if Offset(cs, i) < |tokens| { HashInHistory(h, links, cs, history, tokens, i); }
  }

  lemma MatchIsHitAfter<T, D>(h: Link<T, D> -> D, links: set<Link<T, D>>, cs: Pos, history: seq<seq<T>>,
                               tokens: seq<T>, matched: nat, hashes: seq<D>)
    requires InjectiveOn(h, links) && HistoryLinksIn(h, cs, history, links) && LinksIn(h, cs, tokens, links)
    requires IsPrefixMatch(h, cs, tokens, HashesAfter(h, cs, history), matched, hashes)
    ensures IsHit(cs, PrefixesAfter(cs, history), tokens, matched)
    ensures matched == Offset(cs, |hashes|)
  {
    PrefixesAfterClosed(cs, history);
    SeenInHistory(h, links, cs, history, tokens, |hashes|);
    if hashes != [] { SeenInHistory(h, links, cs, history, tokens, |hashes| - 1); }
    MatchIsHit(h, cs, tokens, HashesAfter(h, cs, history), PrefixesAfter(cs, history), matched, hashes);
  }

  lemma MatchIsHitLength<T, D>(h: Link<T, D> -> D, links: set<Link<T, D>>, cs: Pos, history: seq<seq<T>>,
                               tokens: seq<T>, matched: nat, hashes: seq<D>)
    requires InjectiveOn(h, links) && HistoryLinksIn(h, cs, history, links) && LinksIn(h, cs, tokens, links)
    requires IsPrefixMatch(h, cs, tokens, HashesAfter(h, cs, history), matched, hashes)
    ensures matched == HitLength(cs, PrefixesAfter(cs, history), tokens) && |hashes| == Div(matched, cs)
  {
    MatchIsHitAfter(h, links, cs, history, tokens, matched, hashes);
    HitLengthIsHit(cs, PrefixesAfter(cs, history), tokens);
    HitUnique(cs, PrefixesAfter(cs, history), tokens, matched, HitLength(cs, PrefixesAfter(cs, history), tokens));
    OffsetDivMod(cs, |hashes|, 0);
  }

  // ---------------------------------------------------------------- for the SHA-256 chunk hashes

  /** Every link hashed when a history is stored and a sequence is searched for. */
  function AllLinks(sha: Sha, cs: Pos, history: seq<seq<Token>>, tokens: seq<Token>): set<Link<Token, string>>
  {
    if history == [] then Links(sha, cs, tokens)
    else AllLinks(sha, cs, history[1..], tokens) + Links(sha, cs, history[0])
  }

  lemma {:induction false} AllLinksCover(sha: Sha, cs: Pos, history: seq<seq<Token>>, tokens: seq<Token>,
                                         links: set<Link<Token, string>>)
    requires AllLinks(sha, cs, history, tokens) <= links
    ensures HistoryLinksIn(Hasher(sha), cs, history, links) && LinksIn(Hasher(sha), cs, tokens, links)
  {
    if history == [] {
      LinksCover(sha, cs, tokens, links);
    } else {
      AllLinksCover(sha, cs, history[1..], tokens, links);
      LinksCover(sha, cs, history[0], links);
      assert forall s | s in history :: s == history[0] || s in history[1..];
    }
  }

  lemma {:induction false} AllLinksClean(sha: Sha, cs: Pos, history: seq<seq<Token>>, tokens: seq<Token>)
    requires TopByteZero(tokens) && forall s | s in history :: TopByteZero(s)
    ensures forall l | l in AllLinks(sha, cs, history, tokens) :: CleanLink(l)
  {
    if history == [] {
      LinksClean(sha, cs, tokens);
    } else {
      AllLinksClean(sha, cs, history[1..], tokens);
      LinksClean(sha, cs, history[0]);
    }
  }

  lemma LinksInjective(sha: Sha, cs: Pos, history: seq<seq<Token>>, tokens: seq<Token>)
    requires TopByteZero(tokens) && forall s | s in history :: TopByteZero(s)
    requires CollisionFree(sha, PreimagesOf(AllLinks(sha, cs, history, tokens)))
    ensures InjectiveOn(Hasher(sha), AllLinks(sha, cs, history, tokens))
  {
    AllLinksClean(sha, cs, history, tokens);
    HasherInjective(sha, AllLinks(sha, cs, history, tokens));
  }

  /** After any history of stores of tokens with zero top bytes, and absent digest collisions among the
      preimages that occur, the upward scan returns exactly the length the downward scan returns. */
  lemma SearchesAgree(sha: Sha, cs: Pos, history: seq<seq<Token>>, tokens: seq<Token>, matched: nat,
                      hashes: seq<string>)
    requires TopByteZero(tokens) && forall s | s in history :: TopByteZero(s)
    requires CollisionFree(sha, PreimagesOf(AllLinks(sha, cs, history, tokens)))
    requires IsPrefixMatch(Hasher(sha), cs, tokens, HashesAfter(Hasher(sha), cs, history), matched, hashes)
    ensures matched == HitLength(cs, PrefixesAfter(cs, history), tokens)
    ensures |hashes| == matched / cs
  {
    LinksInjective(sha, cs, history, tokens);
    AllLinksCover(sha, cs, history, tokens, AllLinks(sha, cs, history, tokens));
    MatchIsHitLength(Hasher(sha), AllLinks(sha, cs, history, tokens), cs, history, tokens, matched, hashes);
    DivModAgree(matched, cs);
  }
}
