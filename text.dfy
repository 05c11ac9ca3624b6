/**
 * Character and string primitives of the C library that the compiler stages rely on:
 * `isspace` in the C locale, `strstr`, `printf("%d")`, and the integer scanning shared by
 * `sscanf("%d")` and `atoi`. Strings are `seq<char>`, one char per byte.
 */
module Text {
  import opened Wrappers

  /** `isspace` in the C locale: space, \t, \n, \v, \f, \r. */
  predicate IsSpace(c: char) {
    c == ' ' || c == '\t' || c == '\n' || c == '\r' || c as int == 11 || c as int == 12
  }

  predicate IsDigit(c: char) {
    '0' <= c <= '9'
  }

  /** `n` levels of two-space indentation, as `for (i = 0; i < n; i++) printf("  ")` writes it. */
  function Pad(n: int): (r: string)
    ensures n <= 0 ==> r == []
    ensures n > 0 ==> |r| == 2 * n
    ensures forall k :: 0 <= k < |r| ==> r[k] == ' '
  {
    if n <= 0 then [] else "  " + Pad(n - 1)
  }

  /** `strstr(s, pat) != NULL`: `pat` occurs in `s` as a contiguous substring. */
  predicate Contains(s: string, pat: string)
    decreases |s|
  {
    if |s| < |pat| then false else s[..|pat|] == pat || Contains(s[1..], pat)
  }

  /** An occurrence at any index makes `Contains` true. */
  lemma {:induction false} ContainsAt(s: string, pat: string, i: nat)
    requires i + |pat| <= |s| && s[i..i + |pat|] == pat
    ensures Contains(s, pat)
    decreases i
  {
    if i > 0 {
      assert s[1..][i - 1..i - 1 + |pat|] == s[i..i + |pat|];
      ContainsAt(s[1..], pat, i - 1);
    } else {
      assert s[..|pat|] == s[i..i + |pat|];
    }
  }

  /** `Contains` holds exactly when some window of `s` equals `pat`. */
  lemma {:induction false} ContainsWitness(s: string, pat: string) returns (i: nat)
    requires Contains(s, pat)
    ensures i + |pat| <= |s| && s[i..i + |pat|] == pat
    decreases |s|
  {
    if s[..|pat|] == pat {
      i := 0;
    } else {
      var j := ContainsWitness(s[1..], pat);
      assert s[1..][j..j + |pat|] == s[j + 1..j + 1 + |pat|];
      i := j + 1;
    }
  }

  /** `pat` occurs in `s` starting at index `k`. */
  predicate OccursAt(s: string, pat: string, k: int) {
    0 <= k && k + |pat| <= |s| && s[k..k + |pat|] == pat
  }

  /** The index of the first occurrence of `pat` in `s` (what `strstr` points at), or -1. */
  function FindFirst(s: string, pat: string): (r: int)
    ensures -1 <= r
    ensures r == -1 <==> !Contains(s, pat)
    ensures r >= 0 ==> OccursAt(s, pat, r)
    ensures forall k :: 0 <= k < r ==> !OccursAt(s, pat, k)
  {
    var r := FindFrom(s, pat, 0);
    FindFirstContains(s, pat, r);
    r
  }

  lemma FindFirstContains(s: string, pat: string, r: int)
    requires r == FindFrom(s, pat, 0)
    ensures r == -1 <==> !Contains(s, pat)
  {
    if r >= 0 {
      ContainsAt(s, pat, r);
    } else if Contains(s, pat) {
      var w := ContainsWitness(s, pat);
      assert OccursAt(s, pat, w);
    }
  }

  function FindFrom(s: string, pat: string, i: nat): (r: int)
    ensures r == -1 || (i <= r && OccursAt(s, pat, r))
    ensures r == -1 ==> forall k :: i <= k ==> !OccursAt(s, pat, k)
    ensures forall k :: i <= k < r ==> !OccursAt(s, pat, k)
    decreases |s| - i
  {
    if i + |pat| > |s| then -1
    else if s[i..i + |pat|] == pat then i
    else FindFrom(s, pat, i + 1)
  }

  /** A string lacking one of the pattern's characters cannot contain the pattern. */
  lemma {:induction false} MissingChar(s: string, pat: string, c: char)
    requires c in pat && c !in s
    ensures !Contains(s, pat)
    decreases |s|
  {
    if |s| >= |pat| {
      assert s[..|pat|] != pat by {
        var k :| 0 <= k < |pat| && pat[k] == c;
        assert s[..|pat|][k] == s[k];
      }
      MissingChar(s[1..], pat, c);
    }
  }

  /** What a slice contains, the whole string contains. */
  lemma ContainsSlice(s: string, lo: nat, hi: nat, pat: string)
    requires lo <= hi <= |s| && Contains(s[lo..hi], pat)
    ensures Contains(s, pat)
  {
    var t := s[lo..hi];
    var i := ContainsWitness(t, pat);
    var x, y := t[i..i + |pat|], s[lo + i..lo + i + |pat|];
    forall k | 0 <= k < |pat| ensures x[k] == y[k] {
      assert x[k] == t[i + k] == s[lo + i + k];
    }
    assert x == y;
    ContainsAt(s, pat, lo + i);
  }

  /**
   * An occurrence in `a + b` lies wholly in `a` or wholly in `b` when the character at the
   * seam (the last of `a` or the first of `b`) does not occur in the pattern.
   */
  lemma ContainsConcat(a: string, b: string, pat: string)
    requires |pat| > 0
    requires (|a| > 0 && a[|a| - 1] !in pat) || (|b| > 0 && b[0] !in pat)
    ensures Contains(a + b, pat) <==> Contains(a, pat) || Contains(b, pat)
  {
    if Contains(a + b, pat) {
      ContainsConcatSplit(a, b, pat);
    }
    if Contains(a, pat) {
      var i := ContainsWitness(a, pat);
      WindowInLeft(a, b, pat, i);
    }
    if Contains(b, pat) {
      var i := ContainsWitness(b, pat);
      WindowInRight(a, b, pat, i);
    }
  }

  /** An occurrence in either part is an occurrence in the concatenation. */
  lemma WindowInLeft(a: string, b: string, pat: string, i: nat)
    requires i + |pat| <= |a| && a[i..i + |pat|] == pat
    ensures Contains(a + b, pat)
  {
    assert (a + b)[i..i + |pat|] == a[i..i + |pat|];
    ContainsAt(a + b, pat, i);
  }

  lemma WindowInRight(a: string, b: string, pat: string, j: nat)
    requires j + |pat| <= |b| && b[j..j + |pat|] == pat
    ensures Contains(a + b, pat)
  {
    assert (a + b)[|a| + j..|a| + j + |pat|] == b[j..j + |pat|];
    ContainsAt(a + b, pat, |a| + j);
  }

  lemma ContainsConcatSplit(a: string, b: string, pat: string)
    requires |pat| > 0
    requires (|a| > 0 && a[|a| - 1] !in pat) || (|b| > 0 && b[0] !in pat)
    requires Contains(a + b, pat)
    ensures Contains(a, pat) || Contains(b, pat)
  {
    var s := a + b;
    var i := ContainsWitness(s, pat);
    if |a| > 0 && a[|a| - 1] !in pat {
      OutsideWindow(s, pat, i, |a| - 1);
    } else {
      OutsideWindow(s, pat, i, |a|);
    }
    WindowInPart(a, b, pat, i);
  }

  /** An occurrence in the concatenation that does not straddle the seam lies in one part. */
  lemma WindowInPart(a: string, b: string, pat: string, i: nat)
    requires i + |pat| <= |a + b| && (a + b)[i..i + |pat|] == pat
    requires i + |pat| <= |a| || |a| <= i
    ensures Contains(a, pat) || Contains(b, pat)
  {
    var s := a + b;
    if i + |pat| <= |a| {
      assert s[i..i + |pat|] == a[i..i + |pat|];
      ContainsAt(a, pat, i);
    } else {
      assert s[i..i + |pat|] == b[i - |a|..i - |a| + |pat|];
      ContainsAt(b, pat, i - |a|);
    }
  }

  /** A position holding a character foreign to the pattern lies outside every occurrence. */
  lemma OutsideWindow(s: string, pat: string, i: nat, p: nat)
    requires i + |pat| <= |s| && s[i..i + |pat|] == pat
    requires p < |s| && s[p] !in pat
    ensures p < i || i + |pat| <= p
  {
  }

  function DigitChar(d: nat): (c: char)
    requires d < 10
    ensures IsDigit(c)
  {
    "0123456789"[d]
  }

  function DigitValue(c: char): nat
    requires IsDigit(c)
  {
    (c - '0') as nat
  }

  /** Decimal text of a natural number, most significant digit first, no leading zeros. */
  function NatToString(n: nat): (r: string)
    ensures |r| > 0 && forall k :: 0 <= k < |r| ==> IsDigit(r[k])
  {
    if n < 10 then [DigitChar(n)] else NatToString(n / 10) + [DigitChar(n % 10)]
  }

  /** `printf("%d", n)`: an optional minus sign followed by the decimal digits. */
  function IntToString(n: int): (r: string)
    ensures |r| > 0
    ensures forall k :: 0 <= k < |r| ==> IsDigit(r[k]) || r[k] == '-'
    ensures IsDigit(r[0]) || r[0] == '-'
  {
    if n < 0 then "-" + NatToString(-n) else NatToString(n)
  }

  predicate AllDigits(d: string) {
    forall k :: 0 <= k < |d| ==> IsDigit(d[k])
  }

  /** Value of a digit string read left to right (`v = v * 10 + digit`). */
  function DigitsValue(d: string): nat
    requires AllDigits(d)
  {
    if d == [] then 0 else DigitsValue(d[..|d| - 1]) * 10 + DigitValue(d[|d| - 1])
  }

  /** The longest prefix of `s` made of decimal digits. */
  function DigitPrefix(s: string): (d: string)
    ensures AllDigits(d) && d <= s
    ensures |d| < |s| ==> !IsDigit(s[|d|])
  {
    if s != [] && IsDigit(s[0]) then [s[0]] + DigitPrefix(s[1..]) else []
  }

  function SkipSpaces(s: string): (t: string)
    ensures t != [] ==> !IsSpace(t[0])
  {
    if s != [] && IsSpace(s[0]) then SkipSpaces(s[1..]) else s
  }

  /**
   * The integer conversion of `sscanf("%d")` and `atoi`: skip white space, take an optional
   * sign, then the longest run of digits. None when there is no digit (sscanf then assigns
   * nothing and atoi yields 0).
   */
  function ScanInt(s: string): Option<int>
  {
    var t := SkipSpaces(s);
    var neg := t != [] && t[0] == '-';
    var u := if t != [] && (t[0] == '-' || t[0] == '+') then t[1..] else t;
    var d := DigitPrefix(u);
    var v: int := DigitsValue(d);
    if d == [] then None else Some(if neg then -v else v)
  }

  /** `atoi(s)`. */
  function Atoi(s: string): int {
    ScanInt(s).GetOr(0)
  }

  lemma {:induction false} DigitsValueOfNatToString(n: nat)
    ensures DigitsValue(NatToString(n)) == n
  {
    if n >= 10 {
      var d := NatToString(n / 10);
      assert (d + [DigitChar(n % 10)])[..|d|] == d;
      DigitsValueOfNatToString(n / 10);
    }
  }

  lemma {:induction false} DigitPrefixOfDigits(d: string, rest: string)
    requires AllDigits(d)
    requires rest == [] || !IsDigit(rest[0])
    ensures DigitPrefix(d + rest) == d
    decreases |d|
  {
    if d != [] {
      assert (d + rest)[1..] == d[1..] + rest;
      DigitPrefixOfDigits(d[1..], rest);
    }
  }

  /** Scanning the printed form of `n`, followed by anything that is not a digit, gives back `n`. */
  lemma ScanIntOfIntToString(n: int, rest: string)
    requires rest == [] || !IsDigit(rest[0])
    ensures ScanInt(IntToString(n) + rest) == Some(n)
  {
    var m: nat := if n < 0 then -n else n;
    var d := NatToString(m);
    DigitPrefixOfDigits(d, rest);
    DigitsValueOfNatToString(m);
    if n < 0 {
      NegativeText(n, rest);
      ScanSigned(d + rest, d);
    } else {
      assert IntToString(n) + rest == d + rest;
      ScanUnsigned(d + rest, d);
    }
  }

  lemma NegativeText(n: int, rest: string)
    requires n < 0
    ensures IntToString(n) + rest == "-" + (NatToString(-n) + rest)
  {
  }

  lemma ScanUnsigned(u: string, d: string)
    requires d != [] && DigitPrefix(u) == d
    ensures ScanInt(u) == Some(DigitsValue(d) as int)
  {
    assert u[0] == d[0];
    assert SkipSpaces(u) == u;
  }

  lemma ScanSigned(u: string, d: string)
    requires d != [] && DigitPrefix(u) == d
    ensures ScanInt("-" + u) == Some(-(DigitsValue(d) as int))
  {
    var s := "-" + u;
    assert s[0] == '-' && !IsSpace(s[0]);
    assert SkipSpaces(s) == s;
    assert s[1..] == u;
  }
}
