/**
 * The pieces of java.lang.String and StringBuilder behaviour that the protocol's
 * messages depend on: decimal rendering of integers, `trim`, `isBlank`,
 * prefix and suffix tests, lexicographic order, sorting a set and joining.
 */
module Strings {

  // ---------------------------------------------------------------------------
  // Decimal rendering (Integer.toString / StringBuilder.append(int))
  // ---------------------------------------------------------------------------

  function DigitChar(d: nat): (c: char)
    requires d < 10
    ensures '0' <= c <= '9'
  {
    "0123456789"[d]
  }

  function DigitValue(c: char): (d: nat)
    requires '0' <= c <= '9'
    ensures d < 10 && DigitChar(d) == c
  {
    (c as int - '0' as int)
  }

  predicate AllDigits(s: string) {
    forall i :: 0 <= i < |s| ==> '0' <= s[i] <= '9'
  }

  /** Decimal digits of `n`, most significant first, without leading zeros. */
  function NatToString(n: nat): (s: string)
    ensures |s| >= 1 && AllDigits(s)
    ensures n > 0 ==> s[0] != '0'
    decreases n
  {
    if n < 10 then [DigitChar(n)] else NatToString(n / 10) + [DigitChar(n % 10)]
  }

  /** Decimal rendering of a Java `int` or `long`: a minus sign for negatives. */
  function IntToString(n: int): (s: string)
    ensures |s| >= 1
    ensures n >= 0 ==> s == NatToString(n)
    ensures n < 0 ==> s == "-" + NatToString(-n)
  {
    if n < 0 then "-" + NatToString(-n) else NatToString(n)
  }

  /** Reads a string of decimal digits back; the reference that NatToString inverts. */
  function ParseDigits(s: string): nat
    requires AllDigits(s)
    decreases |s|
  {
    if s == [] then 0 else ParseDigits(s[..|s| - 1]) * 10 + DigitValue(s[|s| - 1])
  }

  lemma {:induction false} ParseNatToString(n: nat)
    ensures ParseDigits(NatToString(n)) == n
    decreases n
  {
    if n >= 10 {
      ParseNatToString(n / 10);
      SplitLastDigit(n);
    }
  }

  /** Reading back a number of two or more digits: all digits but the last, then the last. */
  lemma SplitLastDigit(n: nat)
    requires n >= 10
    ensures ParseDigits(NatToString(n)) == ParseDigits(NatToString(n / 10)) * 10 + n % 10
  {
    var s := NatToString(n);
    assert s[..|s| - 1] == NatToString(n / 10);
    assert DigitValue(s[|s| - 1]) == n % 10;
  }

  lemma NatToStringInjective(a: nat, b: nat)
    requires NatToString(a) == NatToString(b)
    ensures a == b
  {
    ParseNatToString(a);
    ParseNatToString(b);
  }

  lemma MinusIsNotADigit(neg: int, nonneg: int)
    requires neg < 0 <= nonneg
    ensures IntToString(neg) != IntToString(nonneg)
  {
    assert IntToString(neg)[0] == '-';
    assert '0' <= IntToString(nonneg)[0] <= '9';
  }

  lemma NegativeDigitsAfterMinus(a: int)
    requires a < 0
    ensures IntToString(a)[1..] == NatToString(-a)
  {
  }

  /** Different numbers render differently, so a message names its number unambiguously. */
  lemma IntToStringInjective(a: int, b: int)
    requires IntToString(a) == IntToString(b)
    ensures a == b
  {
    if a >= 0 && b >= 0 {
      NatToStringInjective(a, b);
    } else if a < 0 && b < 0 {
      var na: nat, nb: nat := -a, -b;
      NegativeDigitsAfterMinus(a);
      NegativeDigitsAfterMinus(b);
      NatToStringInjective(na, nb);
    } else if a < 0 {
      MinusIsNotADigit(a, b);
    } else {
      MinusIsNotADigit(b, a);
    }
  }

  // ---------------------------------------------------------------------------
  // Whitespace: Character.isWhitespace, String.isBlank, String.trim
  // ---------------------------------------------------------------------------

  /** Character.isWhitespace: the Unicode space, line and paragraph separators
    * except the non-breaking ones, plus the ASCII controls 9-13 and 28-31. */
  predicate IsWhitespace(c: char) {
    var v := c as int;
    (0x09 <= v <= 0x0D) || (0x1C <= v <= 0x20) || v == 0x1680
    || (0x2000 <= v <= 0x2006) || (0x2008 <= v <= 0x200A)
    || v == 0x2028 || v == 0x2029 || v == 0x205F || v == 0x3000
  }

  /** String.isBlank: empty, or whitespace only. */
  predicate IsBlank(s: string) {
    forall i :: 0 <= i < |s| ==> IsWhitespace(s[i])
  }

  /** String.trim counts every character up to U+0020 as trimmable. */
  predicate Trimmable(c: char) {
    c <= ' '
  }

  function TrimStart(s: string): (r: string)
    ensures |r| <= |s| && r == s[|s| - |r|..]
    ensures r == [] || !Trimmable(r[0])
    ensures forall i :: 0 <= i < |s| - |r| ==> Trimmable(s[i])
    decreases |s|
  {
    if s != [] && Trimmable(s[0]) then TrimStart(s[1..]) else s
  }

  function TrimEnd(s: string): (r: string)
    ensures |r| <= |s| && r == s[..|r|]
    ensures r == [] || !Trimmable(r[|r| - 1])
    ensures forall i :: |r| <= i < |s| ==> Trimmable(s[i])
    decreases |s|
  {
    if s != [] && Trimmable(s[|s| - 1]) then TrimEnd(s[..|s| - 1]) else s
  }

  /** String.trim: drops leading and trailing characters up to U+0020. */
  function Trim(s: string): (r: string)
    ensures r == [] || (!Trimmable(r[0]) && !Trimmable(r[|r| - 1]))
    ensures exists i, j :: 0 <= i <= j <= |s| && r == s[i..j]
  {
    var a := TrimStart(s);
    var b := TrimEnd(a);
    SliceOfSuffix(s, |s| - |a|, |b|);
    b
  }

  lemma SliceOfSuffix(s: string, i: nat, n: nat)
    requires i + n <= |s|
    ensures s[i..][..n] == s[i..i + n]
  {
  }

  /** Trimming a string that is empty or made only of trimmable characters gives "". */
  lemma {:induction false} TrimEmptyIffAllTrimmable(s: string)
    ensures Trim(s) == [] <==> forall i :: 0 <= i < |s| ==> Trimmable(s[i])
  {
    var a := TrimStart(s);
    if a != [] {
      assert !Trimmable(a[0]);
      assert TrimEnd(a) != [];
      assert s[|s| - |a|] == a[0];
    }
  }

  // ---------------------------------------------------------------------------
  // Prefixes and suffixes
  // ---------------------------------------------------------------------------

  predicate StartsWith(s: string, prefix: string) {
    |prefix| <= |s| && s[..|prefix|] == prefix
  }

  predicate EndsWith(s: string, suffix: string) {
    |suffix| <= |s| && s[|s| - |suffix|..] == suffix
  }

  // ---------------------------------------------------------------------------
  // Lexicographic order (String.compareTo) and sorted joins
  // ---------------------------------------------------------------------------

  /** The UTF-16 code units of one character: the character itself below U+10000, a surrogate
    * pair (high, then low) above. */
  function CodeUnits(c: char): (r: seq<int>)
    ensures |r| == 1 <==> (c as int) < 0x10000
    ensures |r| == 2 <==> (c as int) >= 0x10000
    ensures |r| == 1 ==> r[0] == c as int && !(0xD800 <= r[0] < 0xE000)
    ensures |r| == 2 ==> 0xD800 <= r[0] < 0xDC00 && 0xDC00 <= r[1] < 0xE000
  {
    var v := c as int;
    if v < 0x10000 then [v]
    else [0xD800 + (v - 0x10000) / 0x400, 0xDC00 + (v - 0x10000) % 0x400]
  }

  /** Different characters have different code units. */
  lemma CodeUnitsInjective(c: char, d: char)
    requires CodeUnits(c) == CodeUnits(d)
    ensures c == d
  {
    var v, w := c as int, d as int;
    if v >= 0x10000 {
      assert v - 0x10000 == (v - 0x10000) / 0x400 * 0x400 + (v - 0x10000) % 0x400;
      assert w - 0x10000 == (w - 0x10000) / 0x400 * 0x400 + (w - 0x10000) % 0x400;
    }
  }

  /** A string's UTF-16 code units, the sequence a Java string holds. */
  function Utf16(s: string): (r: seq<int>)
    ensures |r| >= |s|
    ensures s != [] ==> r == CodeUnits(s[0]) + Utf16(s[1..])
    decreases |s|
  {
    if s == [] then [] else CodeUnits(s[0]) + Utf16(s[1..])
  }

  /** Distinct strings have distinct code units: the first unit of a character says whether it
    * is one unit or a surrogate pair. */
  lemma {:induction false} Utf16Injective(a: string, b: string)
    requires Utf16(a) == Utf16(b)
    ensures a == b
    decreases |a|
  {
    if a != [] && b != [] {
      var ca, cb := CodeUnits(a[0]), CodeUnits(b[0]);
      assert Utf16(a)[0] == ca[0] && Utf16(b)[0] == cb[0];
      assert |ca| == |cb|;
      assert ca == Utf16(a)[..|ca|] && cb == Utf16(b)[..|cb|];
      CodeUnitsInjective(a[0], b[0]);
      assert Utf16(a[1..]) == Utf16(a)[|ca|..] && Utf16(b[1..]) == Utf16(b)[|cb|..];
      Utf16Injective(a[1..], b[1..]);
      assert a == [a[0]] + a[1..] && b == [b[0]] + b[1..];
    }
  }

  /** Lexicographic order on code-unit sequences: a proper prefix, or smaller at the first difference. */
  predicate UnitsLess(a: seq<int>, b: seq<int>)
    decreases |a|
  {
    if a == [] then b != []
    else b != [] && (a[0] < b[0] || (a[0] == b[0] && UnitsLess(a[1..], b[1..])))
  }

  /** `a` sorts strictly before `b` under String.compareTo, which compares UTF-16 code units. */
  predicate Less(a: string, b: string) {
    UnitsLess(Utf16(a), Utf16(b))
  }

  lemma {:induction false} UnitsLessIrreflexive(a: seq<int>)
    ensures !UnitsLess(a, a)
    decreases |a|
  {
    if a != [] {
      UnitsLessIrreflexive(a[1..]);
    }
  }

  lemma {:induction false} UnitsLessTransitive(a: seq<int>, b: seq<int>, c: seq<int>)
    requires UnitsLess(a, b) && UnitsLess(b, c)
    ensures UnitsLess(a, c)
    decreases |a|
  {
    if a != [] && a[0] == b[0] && b[0] == c[0] {
      UnitsLessTransitive(a[1..], b[1..], c[1..]);
    }
  }

  lemma {:induction false} UnitsLessTotal(a: seq<int>, b: seq<int>)
    requires a != b
    ensures UnitsLess(a, b) || UnitsLess(b, a)
    decreases |a|
  {
    if a != [] && b != [] && a[0] == b[0] {
      assert a == [a[0]] + a[1..];
      assert b == [b[0]] + b[1..];
      UnitsLessTotal(a[1..], b[1..]);
    }
  }

  lemma LessIrreflexive(a: string)
    ensures !Less(a, a)
  {
    UnitsLessIrreflexive(Utf16(a));
  }

  lemma LessTransitive(a: string, b: string, c: string)
    requires Less(a, b) && Less(b, c)
    ensures Less(a, c)
  {
    UnitsLessTransitive(Utf16(a), Utf16(b), Utf16(c));
  }

  lemma LessTotal(a: string, b: string)
    requires a != b
    ensures Less(a, b) || Less(b, a)
  {
    if Utf16(a) == Utf16(b) {
      Utf16Injective(a, b);
    }
    UnitsLessTotal(Utf16(a), Utf16(b));
  }

  lemma {:induction false} LessAsymmetric(a: string, b: string)
    requires Less(a, b)
    ensures !Less(b, a)
  {
    if Less(b, a) {
      LessTransitive(a, b, a);
      LessIrreflexive(a);
    }
  }

  /** The order is by code unit, not by character: a character above U+FFFF starts with a high
    * surrogate, so it sorts before U+FFFF though its scalar value is larger. */
  lemma SupplementaryBeforeHighBmp()
    ensures Less("\U{10000}", "\U{FFFF}")
    ensures !Less("\U{FFFF}", "\U{10000}")
  {
    assert Utf16("\U{10000}") == [0xD800, 0xDC00];
    assert Utf16("\U{FFFF}") == [0xFFFF];
  }

  predicate IsMinimum(m: string, s: set<string>) {
    m in s && forall x :: x in s && x != m ==> Less(m, x)
  }

  lemma {:induction false} MinimumExists(s: set<string>)
    requires s != {}
    ensures exists m :: IsMinimum(m, s)
    decreases |s|
  {
    var x :| x in s;
    if s == {x} {
      assert IsMinimum(x, s);
    } else {
      MinimumExists(s - {x});
      var m :| IsMinimum(m, s - {x});
      if Less(x, m) {
        forall y | y in s && y != x ensures Less(x, y) {
          if y != m {
            LessTransitive(x, m, y);
          }
        }
        assert IsMinimum(x, s);
      } else {
        LessTotal(x, m);
        assert IsMinimum(m, s);
      }
    }
  }

  lemma MinimumUnique(s: set<string>, m: string, n: string)
    requires IsMinimum(m, s) && IsMinimum(n, s)
    ensures m == n
  {
    if m != n {
      LessAsymmetric(m, n);
    }
  }

  /** The least element of a non-empty set of strings. */
  function Minimum(s: set<string>): (m: string)
    requires s != {}
    ensures m in s && forall x :: x in s && x != m ==> Less(m, x)
  {
    MinimumExists(s);
    forall m, n | IsMinimum(m, s) && IsMinimum(n, s) ensures m == n {
      MinimumUnique(s, m, n);
    }
    var m :| IsMinimum(m, s);
    m
  }

  predicate StrictlySorted(xs: seq<string>) {
    forall i, j :: 0 <= i < j < |xs| ==> Less(xs[i], xs[j])
  }

  /** The elements of `s` in ascending order, each once (`stream().sorted()`). */
  function SortedElements(s: set<string>): (r: seq<string>)
    ensures |r| == |s|
    ensures forall x :: x in s <==> x in r
    ensures StrictlySorted(r)
    decreases |s|
  {
    if s == {} then []
    else
      var m := Minimum(s);
      var rest := SortedElements(s - {m});
      PrependMinimum(s, m, rest);
      [m] + rest
  }

  /** The minimum of a set, put before the other elements in ascending order, keeps them ascending. */
  lemma PrependMinimum(s: set<string>, m: string, rest: seq<string>)
    requires m in s && forall x :: x in s && x != m ==> Less(m, x)
    requires forall x :: x in s - {m} <==> x in rest
    requires StrictlySorted(rest)
    ensures StrictlySorted([m] + rest)
  {
    var r := [m] + rest;
    forall i, j | 0 <= i < j < |r| ensures Less(r[i], r[j]) {
      assert r[j] == rest[j - 1] && r[j] in s - {m};
      if i > 0 {
        assert r[i] == rest[i - 1];
      }
    }
  }

  /** `reduce((a, b) -> a + sep + b)` over a sequence, a left fold; "" for no elements. */
  function Join(xs: seq<string>, sep: string): (r: string)
    ensures |xs| == 1 ==> r == xs[0]
    decreases |xs|
  {
    if |xs| == 0 then "" else if |xs| == 1 then xs[0]
    else Join(xs[..|xs| - 1], sep) + sep + xs[|xs| - 1]
  }

  /** Joining a sorted sequence of two or more names begins with the smallest one and a separator. */
  lemma {:induction false} JoinStartsWithFirst(xs: seq<string>, sep: string)
    requires |xs| >= 2
    ensures StartsWith(Join(xs, sep), xs[0] + sep)
    decreases |xs|
  {
    var init := xs[..|xs| - 1];
    var p := xs[0] + sep;
    var j := Join(init, sep);
    assert Join(xs, sep) == j + sep + xs[|xs| - 1];
    if |xs| > 2 {
      JoinStartsWithFirst(init, sep);
      assert init[0] == xs[0];
      assert j[..|p|] == p;
      assert (j + sep + xs[|xs| - 1])[..|p|] == j[..|p|];
    } else {
      assert j == xs[0];
      assert (j + sep + xs[|xs| - 1])[..|p|] == p;
    }
  }
}
