/** Python's str.split, str.join, str(int) and int(str), for the strings cache keys are made of. */
module Text {
  import opened Wrappers

  /** `s.split(sep)` for a one-character separator. */
  function Split(s: string, sep: char): (parts: seq<string>)
    ensures |parts| >= 1
  {
    if s == "" then [""]
    else
      var rest := Split(s[1..], sep);
      if s[0] == sep then [""] + rest else [[s[0]] + rest[0]] + rest[1..]
  }

  /** `sep.join(parts)`. */
  function Join(parts: seq<string>, sep: char): string
    requires |parts| >= 1
  {
    if |parts| == 1 then parts[0] else parts[0] + [sep] + Join(parts[1..], sep)
  }

  function Occurrences(s: string, c: char): nat
  {
    if s == "" then 0 else (if s[0] == c then 1 else 0) + Occurrences(s[1..], c)
  }

  lemma {:induction false} OccurrencesConcat(s: string, t: string, c: char)
    ensures Occurrences(s + t, c) == Occurrences(s, c) + Occurrences(t, c)
  {
    if s == "" {
      assert s + t == t;
    } else {
      assert (s + t)[1..] == s[1..] + t;
      OccurrencesConcat(s[1..], t, c);
    }
  }

  lemma {:induction false} OccurrencesZero(s: string, c: char)
    ensures Occurrences(s, c) == 0 <==> c !in s
  {
    if s != "" {
      assert s == [s[0]] + s[1..];
      OccurrencesZero(s[1..], c);
    }
  }

  lemma {:induction false} SplitCount(s: string, sep: char)
    ensures |Split(s, sep)| == Occurrences(s, sep) + 1
  {
    if s != "" { SplitCount(s[1..], sep); }
  }

  function TotalOccurrences(parts: seq<string>, c: char): nat
  {
    if parts == [] then 0 else Occurrences(parts[0], c) + TotalOccurrences(parts[1..], c)
  }

  lemma {:induction false} JoinCount(parts: seq<string>, sep: char)
    requires |parts| >= 1
    ensures Occurrences(Join(parts, sep), sep) == TotalOccurrences(parts, sep) + |parts| - 1
  {
    if |parts| > 1 {
      JoinCount(parts[1..], sep);
      OccurrencesConcat(parts[0] + [sep], Join(parts[1..], sep), sep);
      OccurrencesConcat(parts[0], [sep], sep);
      assert [sep][1..] == "";
    }
  }

  predicate Free(parts: seq<string>, sep: char) { forall i {:trigger parts[i]} | 0 <= i < |parts| :: sep !in parts[i] }

  lemma RestFree(parts: seq<string>, sep: char)
    requires parts != [] && Free(parts, sep)
    ensures Free(parts[1..], sep)
  {
    forall i {:trigger parts[1..][i]} | 0 <= i < |parts[1..]|
      ensures sep !in parts[1..][i]
    {
      assert sep !in parts[i + 1];
    }
  }

  lemma {:induction false} FreeCount(parts: seq<string>, sep: char)
    ensures Free(parts, sep) <==> TotalOccurrences(parts, sep) == 0
  {
    if parts != [] {
      OccurrencesZero(parts[0], sep);
      FreeCount(parts[1..], sep);
      assert Free(parts, sep) ==> Free(parts[1..], sep) by {
        if Free(parts, sep) {
          RestFree(parts, sep);
        }
      }
      if Free(parts[1..], sep) && sep !in parts[0] {
        forall i {:trigger parts[i]} | 0 <= i < |parts|
          ensures sep !in parts[i]
        {
          if i > 0 { assert parts[i] == parts[1..][i - 1]; }
        }
      }
    }
  }

  lemma {:induction false} SplitFirst(a: string, rest: string, sep: char)
    requires sep !in a
    ensures Split(a + [sep] + rest, sep) == [a] + Split(rest, sep)
  {
    if a == "" {
      assert a + [sep] + rest == [sep] + rest;
      assert (a + [sep] + rest)[1..] == rest;
    } else {
      assert (a + [sep] + rest)[1..] == a[1..] + [sep] + rest;
      SplitFirst(a[1..], rest, sep);
      assert (a + [sep] + rest)[0] == a[0] && a[0] != sep;
      assert [a[0]] + a[1..] == a;
      assert ([a[1..]] + Split(rest, sep))[1..] == Split(rest, sep);
    }
  }

  lemma {:induction false} SplitWhole(a: string, sep: char)
    requires sep !in a
    ensures Split(a, sep) == [a]
  {
    if a != "" {
      SplitWhole(a[1..], sep);
      assert [a[0]] + a[1..] == a;
    }
  }

  /** Splitting undoes joining exactly when no part holds the separator. */
  lemma {:induction false} SplitJoin(parts: seq<string>, sep: char)
    requires |parts| >= 1 && Free(parts, sep)
    ensures Split(Join(parts, sep), sep) == parts
  {
    assert sep !in parts[0];
    if |parts| == 1 {
      SplitWhole(parts[0], sep);
    } else {
      RestFree(parts, sep);
      SplitJoin(parts[1..], sep);
      SplitFirst(parts[0], Join(parts[1..], sep), sep);
    }
  }

  lemma JoinSplitsBack(parts: seq<string>, sep: char)
    requires |parts| >= 1
    ensures Free(parts, sep) <==> |Split(Join(parts, sep), sep)| == |parts|
    ensures Free(parts, sep) ==> Split(Join(parts, sep), sep) == parts
  {
    SplitCount(Join(parts, sep), sep);
    JoinCount(parts, sep);
    FreeCount(parts, sep);
    if Free(parts, sep) { SplitJoin(parts, sep); }
  }

  // ---------------------------------------------------------------- integers

  predicate IsDigit(c: char) { '0' <= c <= '9' }

  function DigitChar(d: int): char
    requires 0 <= d < 10
  {
    ('0' as int + d) as char
  }

  function DigitValue(c: char): nat
    requires IsDigit(c)
  {
    c as int - '0' as int
  }

  /** `str(n)` of a natural number. */
  function NatText(n: nat): (s: string)
    ensures s != "" && forall i {:trigger s[i]} | 0 <= i < |s| :: IsDigit(s[i])
  {
    if n < 10 then [DigitChar(n)] else NatText(n / 10) + [DigitChar(n % 10)]
  }

  function IntText(n: int): string { if n < 0 then "-" + NatText(-n) else NatText(n) }

  /** Decimal digits, single underscores allowed between them. */
  function ParseNat(s: string): Option<nat>
  {
    var n := |s|;
    if n == 0 || !IsDigit(s[n - 1]) then None
    else if n == 1 then Some(DigitValue(s[0]))
    else
      match ParseNat(s[..if s[n - 2] == '_' then n - 2 else n - 1])
      case None => None
      case Some(v) => Some(10 * v + DigitValue(s[n - 1]))
  }

  predicate IsSpace(c: char) { 9 <= c as int <= 13 || c == ' ' }

  function StripLeft(s: string): string { if s != "" && IsSpace(s[0]) then StripLeft(s[1..]) else s }

  function StripRight(s: string): string { if s != "" && IsSpace(s[|s| - 1]) then StripRight(s[..|s| - 1]) else s }

  /** `int(s)`, or none for its ValueError. */
  function ParseInt(s: string): Option<int>
  {
    var t := StripRight(StripLeft(s));
    if t != "" && (t[0] == '-' || t[0] == '+') then
      match ParseNat(t[1..])
      case None => None
      case Some(v) => if t[0] == '-' then Some(-(v as int)) else Some(v)
    else ParseNat(t)
  }

  lemma {:induction false} ParseNatText(n: nat)
    ensures ParseNat(NatText(n)) == Some(n)
  {
    if n >= 10 {
      ParseNatText(n / 10);
      var s := NatText(n);
      assert s[..|s| - 1] == NatText(n / 10);
      assert IsDigit(s[|s| - 2]) && s[|s| - 1] == DigitChar(n % 10);
    }
  }

  /** int(str(n)) == n. */
  lemma IntRoundTrip(n: int)
    ensures ParseInt(IntText(n)) == Some(n)
  {
    var m := if n < 0 then -n else n;
    ParseNatText(m);
    assert IsDigit(NatText(m)[0]);
    if n < 0 { assert IntText(n)[1..] == NatText(m); }
  }

  lemma IntTextInjective(a: int, b: int)
    ensures IntText(a) == IntText(b) <==> a == b
  {
    IntRoundTrip(a);
    IntRoundTrip(b);
  }

  /** The only character of str(n) besides digits is the sign. */
  lemma IntTextChars(n: int, c: char)
    requires !IsDigit(c)
    ensures c in IntText(n) <==> n < 0 && c == '-'
  {
  }

  // ---------------------------------------------------------------- numerals, character by character

  /** The number that decimal digits stand for, underscores left out. */
  function Decimal(s: string): int
  {
    if s == "" then 0
    else
      var init, c := s[..|s| - 1], s[|s| - 1];
      if c == '_' then Decimal(init) else 10 * Decimal(init) + (c as int - '0' as int)
  }

  /** str(n) has no leading zero, and its digits stand for n. */
  lemma {:induction false} NatTextIs(n: nat)
    ensures Decimal(NatText(n)) == n && (n > 0 ==> NatText(n)[0] != '0')
    ensures forall i {:trigger NatText(n)[i]} | 0 <= i < |NatText(n)| :: '0' <= NatText(n)[i] <= '9'
  {
    if n >= 10 {
      NatTextIs(n / 10);
      var s := NatText(n);
      assert s[..|s| - 1] == NatText(n / 10);
    } else {
      assert NatText(n)[..0] == "";
    }
  }

  /** Not two underscores in a row. */
  predicate Apart(s: string, i: int)
    requires 0 <= i < |s| - 1
  {
    s[i] != '_' || s[i + 1] != '_'
  }

  /** A numeral: digits, with single underscores allowed between them. */
  predicate IsNumeral(s: string)
  {
    && s != "" && '0' <= s[0] <= '9' && '0' <= s[|s| - 1] <= '9'
    && (forall i {:trigger s[i]} | 0 <= i < |s| :: '0' <= s[i] <= '9' || s[i] == '_')
    && forall i {:trigger Apart(s, i)} | 0 <= i < |s| - 1 :: Apart(s, i)
  }

  lemma {:induction false} ParseNatIff(s: string)
    ensures ParseNat(s).Some? <==> IsNumeral(s)
    ensures ParseNat(s).Some? ==> ParseNat(s).value == Decimal(s)
  {
    var n := |s|;
    if n >= 2 && IsDigit(s[n - 1]) {
      var k := if s[n - 2] == '_' then n - 2 else n - 1;
      ParseNatIff(s[..k]);
      NumeralShrinks(s, k);
      if k < n - 1 { assert s[..n - 1][..k] == s[..k]; }
    } else if n == 1 {
      assert s[..0] == "";
    }
  }

  /** Without its last digit, and the underscore before that, a numeral is one. */
  lemma NumeralShrinks(s: string, k: nat)
    requires |s| >= 2 && IsDigit(s[|s| - 1]) && k == if s[|s| - 2] == '_' then |s| - 2 else |s| - 1
    ensures IsNumeral(s) <==> IsNumeral(s[..k])
  {
    var t := s[..k];
    if IsNumeral(s) {
      assert k > 0 && '0' <= s[k - 1] <= '9' by {
        if k == |s| - 2 && k > 0 { assert Apart(s, k - 1); }
      }
      forall i {:trigger t[i]} | 0 <= i < k
        ensures '0' <= t[i] <= '9' || t[i] == '_'
      {
        assert t[i] == s[i];
      }
      forall i {:trigger Apart(t, i)} | 0 <= i < k - 1
        ensures Apart(t, i)
      {
        assert Apart(s, i) && t[i] == s[i] && t[i + 1] == s[i + 1];
      }
    }
    if IsNumeral(t) {
      forall i {:trigger s[i]} | 0 <= i < |s|
        ensures '0' <= s[i] <= '9' || s[i] == '_'
      {
        if i < k { assert t[i] == s[i]; }
      }
      forall i {:trigger Apart(s, i)} | 0 <= i < |s| - 1
        ensures Apart(s, i)
      {
        if i < k - 1 { assert Apart(t, i) && t[i] == s[i] && t[i + 1] == s[i + 1]; }
      }
    }
  }

  /** ASCII white space. */
  predicate AllSpace(s: string)
  {
    forall i {:trigger s[i]} | 0 <= i < |s| ::
      s[i] == ' ' || s[i] == '\t' || s[i] == '\n' || s[i] == '\r' || 11 <= s[i] as int <= 12
  }

  /** An optional sign before a numeral. */
  predicate IsSigned(s: string)
  {
    IsNumeral(s) || (s != "" && (s[0] == '-' || s[0] == '+') && IsNumeral(s[1..]))
  }

  function SignedValue(s: string): int
    requires s != ""
  {
    if s[0] == '-' then -Decimal(s[1..]) else if s[0] == '+' then Decimal(s[1..]) else Decimal(s)
  }

  lemma {:induction false} StripLeftIs(a: string, t: string)
    requires AllSpace(a) && (t != "" ==> !AllSpace(t[..1]))
    ensures StripLeft(a + t) == t
  {
    if a == "" {
      assert a + t == t;
      if t != "" { assert t[..1][0] == t[0]; }
    } else {
      assert IsSpace(a[0]) && (a + t)[1..] == a[1..] + t;
      StripLeftIs(a[1..], t);
    }
  }

  lemma {:induction false} StripRightIs(t: string, b: string)
    requires AllSpace(b) && (t != "" ==> !AllSpace(t[|t| - 1..]))
    ensures StripRight(t + b) == t
  {
    if b == "" {
      assert t + b == t;
      if t != "" { assert t[|t| - 1..][0] == t[|t| - 1]; }
    } else {
      var n := |b| - 1;
      assert IsSpace(b[n]) && (t + b)[..|t| + n] == t + b[..n];
      StripRightIs(t, b[..n]);
    }
  }

  /** int(s) without white space around it: a sign and a numeral, and the number they stand for. */
  lemma ParseIntIff(a: string, t: string, b: string)
    requires AllSpace(a) && AllSpace(b) && t != "" && !AllSpace(t[..1]) && !AllSpace(t[|t| - 1..])
    ensures ParseInt(a + t + b).Some? <==> IsSigned(t)
    ensures ParseInt(a + t + b).Some? ==> ParseInt(a + t + b).value == SignedValue(t)
  {
    assert (t + b)[..1] == t[..1] && a + t + b == a + (t + b);
    StripLeftIs(a, t + b);
    StripRightIs(t, b);
    ParseNatIff(t);
    ParseNatIff(t[1..]);
  }

  /** Nothing but white space is no number. */
  lemma ParseIntOfSpace(a: string)
    requires AllSpace(a)
    ensures ParseInt(a).None?
  {
    StripLeftIs(a, "");
    assert a + "" == a;
  }
}
