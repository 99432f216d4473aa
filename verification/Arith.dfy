/** Whole-number division by a positive step, by repeated subtraction.

The proofs about chunks, workers and round robins step from one multiple to the next, so the definitions
here recurse by addition; `DivModAgree` and `OffsetAgrees` tie them to the built-in operators. */
module Arith {
  type Pos = n: nat | n >= 1 witness 1

  function Min(a: int, b: int): int { if a <= b then a else b }

  function Max(a: int, b: int): int { if a >= b then a else b }

  /** n // d and n % d of the source. */
  function Div(n: nat, d: Pos): nat { if n < d then 0 else Div(n - d, d) + 1 }

  function Mod(n: nat, d: Pos): (m: nat)
    ensures m < d && m <= n
  {
    if n < d then n else Mod(n - d, d)
  }

  /** i * d. */
  function Offset(d: nat, i: nat): nat { if i == 0 then 0 else Offset(d, i - 1) + d }

  /** (n // d) * d, the aligned part of n. */
  function AlignDown(n: nat, d: Pos): nat { n - Mod(n, d) }

  /** ceil(n / d), written the way the source writes it. */
  function CeilDiv(n: nat, d: Pos): nat { Div(n + d - 1, d) }

  lemma {:induction false} DivModAgree(n: nat, d: Pos)
    ensures Div(n, d) == n / d && Mod(n, d) == n % d
  {
    if n >= d {
      DivModAgree(n - d, d);
      var q := (n - d) / d;
      assert n - d == q * d + (n - d) % d;
      QuotientUnique(n, d, q + 1);
    } else {
      QuotientUnique(n, d, 0);
    }
  }

  lemma QuotientUnique(n: nat, d: Pos, q: nat)
    requires q * d <= n < q * d + d
    ensures n / d == q && n % d == n - q * d
  {
    var r := n / d;
    assert n == r * d + n % d;
    assert (r + 1) * d == r * d + d && (q + 1) * d == q * d + d;
    if r < q {
      ProductMono(r + 1, q, d);
    } else if r > q {
      ProductMono(q + 1, r, d);
    }
  }

  lemma ProductMono(a: int, b: int, d: nat)
    requires a <= b
    ensures a * d <= b * d
  {
  }

  lemma {:induction false} OffsetAgrees(d: nat, i: nat)
    ensures Offset(d, i) == i * d
  {
    if i > 0 {
      OffsetAgrees(d, i - 1);
      assert i * d == (i - 1) * d + d;
    }
  }

  lemma {:induction false} DivMod(n: nat, d: Pos)
    ensures n == Offset(d, Div(n, d)) + Mod(n, d)
    ensures AlignDown(n, d) == Offset(d, Div(n, d))
  {
    if n >= d { DivMod(n - d, d); }
  }

  lemma {:induction false} OffsetDivMod(d: Pos, i: nat, r: nat)
    requires r < d
    ensures Div(Offset(d, i) + r, d) == i && Mod(Offset(d, i) + r, d) == r
  {
    if i > 0 { OffsetDivMod(d, i - 1, r); }
  }

  lemma {:induction false} OffsetMono(d: nat, i: nat, j: nat)
    requires i < j
    ensures Offset(d, i) + d <= Offset(d, j)
    decreases j
  {
    if i < j - 1 { OffsetMono(d, i, j - 1); }
  }

  lemma {:induction false} OffsetAdd(d: nat, i: nat, j: nat)
    ensures Offset(d, i + j) == Offset(d, i) + Offset(d, j)
  {
    if j > 0 { OffsetAdd(d, i, j - 1); }
  }

  /** i indexes one of the ceil(n / d) pieces of [0, n) exactly when piece i starts inside it. */
  lemma {:induction false} PieceIndex(n: nat, d: Pos, i: nat)
    ensures i < CeilDiv(n, d) <==> Offset(d, i) < n
    decreases i
  {
    if i > 0 {
      if n >= d {
        PieceIndex(n - d, d, i - 1);
        if n == d { OffsetMono(d, 0, i); }
      } else {
        OffsetMono(d, 0, i);
        if n > 0 { assert Div(n - 1, d) == 0; }
      }
    }
  }

  /** q whole pieces reach n and fewer do not, exactly for ceil(n / d). */
  lemma CeilReaches(n: nat, d: Pos, q: nat)
    ensures Offset(d, q) >= n <==> q >= CeilDiv(n, d)
  {
    PieceIndex(n, d, q);
  }

  lemma CeilUnique(n: nat, d: Pos, q: nat)
    requires n <= Offset(d, q) && (q == 0 || Offset(d, q) < n + d)
    ensures q == CeilDiv(n, d)
  {
    CeilReaches(n, d, q);
    if q > 0 { CeilReaches(n, d, q - 1); }
  }

  /** The first n / d pieces, and only they, fit whole. */
  lemma {:induction false} WholePiece(n: nat, d: Pos, i: nat)
    ensures i < Div(n, d) <==> Offset(d, i) + d <= n
    decreases i
  {
    if n >= d && i > 0 { WholePiece(n - d, d, i - 1); }
  }

  /** A multiple of d that is at most n is at most the aligned part of n. */
  lemma MultipleBelow(k: nat, n: nat, d: Pos)
    requires Mod(k, d) == 0 && k <= n
    ensures k == Offset(d, Div(k, d)) && Div(k, d) <= Div(n, d) && k <= AlignDown(n, d)
  {
  }

  /** The aligned part in the built-in operators. */
  lemma AlignedNatively(n: nat, d: Pos)
    ensures AlignDown(n, d) == d * (n / d)
  {
    DivMod(n, d);
    DivModAgree(n, d);
    OffsetAgrees(d, n / d);
  }

  /** Adding a multiple of d leaves the remainder alone. */
  lemma AddMultiple(a: nat, b: nat, d: Pos)
    requires Mod(a, d) == 0
    ensures Div(a + b, d) == Div(a, d) + Div(b, d) && Mod(a + b, d) == Mod(b, d)
  {
    DivMod(a, d);
    DivMod(b, d);
    OffsetAdd(d, Div(a, d), Div(b, d));
    OffsetDivMod(d, Div(a, d) + Div(b, d), Mod(b, d));
  }

  lemma CeilDivAddMultiple(a: nat, b: nat, d: Pos)
    requires Mod(a, d) == 0
    ensures CeilDiv(a + b, d) == Div(a, d) + CeilDiv(b, d)
  {
  }
}
