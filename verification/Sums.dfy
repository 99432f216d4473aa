/** Sums of an integer measure over a sequence, and cardinalities of unions. */
module Sums {
  function Sum<X>(f: X -> int, xs: seq<X>): int
  {
    if xs == [] then 0 else Sum(f, xs[..|xs| - 1]) + f(xs[|xs| - 1])
  }

  lemma {:induction false} SumUpdate<X>(f: X -> int, xs: seq<X>, i: nat, x: X)
    requires i < |xs|
    ensures Sum(f, xs[i := x]) == Sum(f, xs) - f(xs[i]) + f(x)
  {
    var n := |xs| - 1;
    if i < n {
      assert xs[i := x][..n] == xs[..n][i := x];
      SumUpdate(f, xs[..n], i, x);
    } else {
      assert xs[i := x][..n] == xs[..n];
    }
  }

  lemma SumAppend<X>(f: X -> int, xs: seq<X>, x: X)
    ensures Sum(f, xs + [x]) == Sum(f, xs) + f(x)
  {
  }

  lemma {:induction false} SumConcat<X>(f: X -> int, xs: seq<X>, ys: seq<X>)
    ensures Sum(f, xs + ys) == Sum(f, xs) + Sum(f, ys)
  {
    if ys == [] {
      assert xs + ys == xs;
    } else {
      var n := |ys| - 1;
      assert (xs + ys)[..|xs| + n] == xs + ys[..n];
      SumConcat(f, xs, ys[..n]);
    }
  }

  /** Pointwise comparison of measures carries over to the sums. */
  lemma {:induction false} SumLe<X>(f: X -> int, g: X -> int, xs: seq<X>)
    requires forall i {:trigger xs[i]} | 0 <= i < |xs| :: f(xs[i]) <= g(xs[i])
    ensures Sum(f, xs) <= Sum(g, xs)
  {
    if xs != [] { SumLe(f, g, xs[..|xs| - 1]); }
  }

  lemma {:induction false} SumEq<X>(f: X -> int, g: X -> int, xs: seq<X>)
    requires forall i {:trigger xs[i]} | 0 <= i < |xs| :: f(xs[i]) == g(xs[i])
    ensures Sum(f, xs) == Sum(g, xs)
  {
    if xs != [] { SumEq(f, g, xs[..|xs| - 1]); }
  }

  lemma {:induction false} SumPlus<X>(f: X -> int, g: X -> int, h: X -> int, xs: seq<X>)
    requires forall i {:trigger xs[i]} | 0 <= i < |xs| :: h(xs[i]) == f(xs[i]) + g(xs[i])
    ensures Sum(h, xs) == Sum(f, xs) + Sum(g, xs)
  {
    if xs != [] { SumPlus(f, g, h, xs[..|xs| - 1]); }
  }

  lemma UnionCard<A>(a: set<A>, b: set<A>)
    ensures |a + b| == |a| + |b| - |a * b|
  {
  }

  /** A union grows by all that is added exactly when none of it was there. */
  lemma NewCount<A>(before: set<A>, added: set<A>)
    ensures 0 <= |before + added| - |before| <= |added|
    ensures before !! added <==> |before + added| - |before| == |added|
  {
  }

  // ---------------------------------------------------------------- sums over sets

  ghost function SetSum<X>(f: X -> int, s: set<X>): int
    decreases |s|
  {
    if s == {} then 0 else var x :| x in s; f(x) + SetSum(f, s - {x})
  }

  /** The order in which the elements are added does not matter. */
  lemma {:induction false} SetSumRemove<X>(f: X -> int, s: set<X>, x: X)
    requires x in s
    ensures SetSum(f, s) == f(x) + SetSum(f, s - {x})
    decreases |s|
  {
    var y :| y in s && SetSum(f, s) == f(y) + SetSum(f, s - {y});
    if y != x {
      SetSumRemove(f, s - {y}, x);
      SetSumRemove(f, s - {x}, y);
      assert s - {y} - {x} == s - {x} - {y};
    }
  }

  /** Elements the measure ignores may be added. */
  lemma SetSumInsert<X>(f: X -> int, s: set<X>, x: X)
    requires x !in s ==> f(x) == 0
    ensures SetSum(f, s + {x}) == SetSum(f, s)
  {
    if x in s {
      assert s + {x} == s;
    } else {
      SetSumRemove(f, s + {x}, x);
      assert s + {x} - {x} == s;
    }
  }

  lemma {:induction false} SetSumEq<X>(f: X -> int, g: X -> int, s: set<X>)
    requires forall x :: x in s ==> f(x) == g(x)
    ensures SetSum(f, s) == SetSum(g, s)
    decreases |s|
  {
    if s != {} {
      var x :| x in s;
      SetSumRemove(f, s, x);
      SetSumRemove(g, s, x);
      SetSumEq(f, g, s - {x});
    }
  }

  lemma SetSumChange<X>(f: X -> int, g: X -> int, s: set<X>, x: X)
    requires x in s && forall y :: y in s && y != x ==> f(y) == g(y)
    ensures SetSum(g, s) == SetSum(f, s) + g(x) - f(x)
  {
    SetSumRemove(f, s, x);
    SetSumRemove(g, s, x);
    SetSumEq(f, g, s - {x});
  }
}
