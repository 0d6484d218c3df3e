/**
 * The parts of Python's text handling that the processors and scripts rely on:
 * str.strip/lstrip/rstrip, str.isdigit, int() and float() applied to a string,
 * str() of an int, the ordering of strings, str.split/str.rfind and `in` on
 * strings. Digits are the ASCII digits; the whitespace set is the full set that
 * Python's str.isspace() accepts.
 */
module PyText {
  import opened Wrappers

  // ---------------------------------------------------------------------------
  // Whitespace and stripping

  /** str.isspace() for a single character. */
  predicate IsSpace(c: char) {
    || c == ' '
    || ('\t' <= c <= '\r')
    || ('\U{1C}' <= c <= '\U{1F}')
    || c == '\U{85}' || c == '\U{A0}' || c == '\U{1680}'
    || ('\U{2000}' <= c <= '\U{200A}')
    || c == '\U{2028}' || c == '\U{2029}' || c == '\U{202F}' || c == '\U{205F}' || c == '\U{3000}'
  }

  /** str.lstrip(): the suffix left after the longest all-whitespace prefix. */
  function LStrip(s: string): (r: string)
    ensures |r| <= |s| && r == s[|s| - |r|..]
    ensures r == [] || !IsSpace(r[0])
    ensures forall i :: 0 <= i < |s| - |r| ==> IsSpace(s[i])
  {
    if s != [] && IsSpace(s[0]) then LStrip(s[1..]) else s
  }

  /** str.rstrip(): the prefix left after the longest all-whitespace suffix. */
  function RStrip(s: string): (r: string)
    ensures |r| <= |s| && r == s[..|r|]
    ensures r == [] || !IsSpace(r[|r| - 1])
    ensures forall i :: |r| <= i < |s| ==> IsSpace(s[i])
  {
    if s != [] && IsSpace(s[|s| - 1]) then RStrip(s[..|s| - 1]) else s
  }

  /** str.strip(): whitespace removed from both ends; empty exactly for all-whitespace input. */
  function Strip(s: string): (r: string)
    ensures |r| <= |s|
    ensures r == [] || (!IsSpace(r[0]) && !IsSpace(r[|r| - 1]))
    ensures r == [] <==> forall i :: 0 <= i < |s| ==> IsSpace(s[i])
  {
    var l := LStrip(s);
    var r := RStrip(l);
    assert r == [] ==> l == [];
    r
  }

  /** str.rstrip(c) for a single character c. */
  function RStripChar(s: string, c: char): (r: string)
    ensures |r| <= |s| && r == s[..|r|]
    ensures r == [] || r[|r| - 1] != c
    ensures forall i :: |r| <= i < |s| ==> s[i] == c
  {
    if s != [] && s[|s| - 1] == c then RStripChar(s[..|s| - 1], c) else s
  }

  lemma {:induction false} StripOfUnpadded(s: string)
    requires s == [] || (!IsSpace(s[0]) && !IsSpace(s[|s| - 1]))
    ensures Strip(s) == s
  {
    if s != [] {
      assert LStrip(s) == s;
      assert RStrip(s) == s;
    }
  }

  // ---------------------------------------------------------------------------
  // Digits, int() and str() of an int

  predicate IsDigit(c: char) {
    '0' <= c <= '9'
  }

  predicate AllDigits(s: string) {
    forall i :: 0 <= i < |s| ==> IsDigit(s[i])
  }

  /** str.isdigit() restricted to ASCII digits: non-empty and all digits. */
  predicate IsDigitString(s: string) {
    s != [] && AllDigits(s)
  }

  function DigitValue(c: char): nat
    requires IsDigit(c)
  {
    c as int - '0' as int
  }

  function DigitChar(d: nat): (c: char)
    requires d < 10
    ensures IsDigit(c) && DigitValue(c) == d
  {
    ('0' as int + d) as char
  }

  /** The number a run of decimal digits denotes. */
  function DigitsValue(s: string): nat
    requires AllDigits(s)
  {
    if s == [] then 0 else DigitsValue(s[..|s| - 1]) * 10 + DigitValue(s[|s| - 1])
  }

  function Pow10(n: nat): (p: nat)
    ensures p >= 1
  {
    if n == 0 then 1 else 10 * Pow10(n - 1)
  }

  /** str(n) for a natural number. */
  function NatToString(n: nat): (r: string)
    ensures r != []
  {
    if n < 10 then [DigitChar(n)] else NatToString(n / 10) + [DigitChar(n % 10)]
  }

  /** str(n) is a run of digits denoting n, without a leading zero. */
  lemma {:induction false} NatToStringDigits(n: nat)
    ensures var r := NatToString(n);
            && IsDigitString(r)
            && DigitsValue(r) == n
            && (|r| > 1 ==> r[0] != '0')
  {
    if n >= 10 {
      NatToStringDigits(n / 10);
      var prefix := NatToString(n / 10);
      var r := NatToString(n);
      assert r[..|r| - 1] == prefix;
    }
  }

  /** str(n) for an int: a minus sign before the digits of a negative number. */
  function IntToString(n: int): (r: string)
    ensures r != []
  {
    if n < 0 then "-" + NatToString(-n) else NatToString(n)
  }

  /** str(n) starts with a minus sign or a digit and ends with a digit. */
  lemma IntToStringShape(n: int)
    ensures var r := IntToString(n);
            (r[0] == '-' || IsDigit(r[0])) && IsDigit(r[|r| - 1])
  {
    NatToStringDigits(if n < 0 then -n else n);
    var d := NatToString(if n < 0 then -n else n);
    assert IsDigit(d[|d| - 1]);
  }

  /** An optional sign followed by digits, as int() accepts it once stripped. */
  function ParseSignedDigits(t: string): Option<int> {
    if t != [] && (t[0] == '-' || t[0] == '+') then
      if IsDigitString(t[1..]) then
        var v: int := DigitsValue(t[1..]);
        Some(if t[0] == '-' then -v else v)
      else None
    else if IsDigitString(t) then Some(DigitsValue(t))
    else None
  }

  /**
   * int(s) for a string s: surrounding whitespace, an optional sign, digits.
   * What int() accepts is, once stripped, a digit run behind at most one
   * sign, and its value is that of the digits, negated only after '-'.
   */
  function ParseInt(s: string): (r: Option<int>)
    ensures r.Some? ==> Strip(s) != []
    ensures r.Some? ==> var t := Strip(s);
                        var digits := if t[0] == '-' || t[0] == '+' then t[1..] else t;
                        && IsDigitString(digits)
                        && (if t[0] == '-' then r.value == -(DigitsValue(digits) as int) else r.value == DigitsValue(digits))
    ensures IsDigitString(Strip(s)) ==> r == Some(DigitsValue(Strip(s)))
    ensures r.Some? && r.value < 0 ==> Strip(s)[0] == '-'
  {
    ParseSignedDigits(Strip(s))
  }

  /** int(str(n)) == n. */
  lemma ParseIntOfIntToString(n: int)
    ensures ParseInt(IntToString(n)) == Some(n)
  {
    var s := IntToString(n);
    var m: nat := if n < 0 then -n else n;
    var d := NatToString(m);
    NatToStringDigits(m);
    IntToStringShape(n);
    StripOfUnpadded(s);
    if n < 0 {
      assert s[1..] == d;
      assert ParseSignedDigits(s) == Some(n);
    } else {
      assert s == d && IsDigit(s[0]);
      assert ParseSignedDigits(s) == Some(n);
    }
  }

  // ---------------------------------------------------------------------------
  // float()

  /** Index of the first character satisfying the exponent marker test, or |s|. */
  function ExponentIndex(s: string): (i: nat)
    ensures i <= |s|
    ensures forall k :: 0 <= k < i ==> s[k] != 'e' && s[k] != 'E'
    ensures i < |s| ==> s[i] == 'e' || s[i] == 'E'
  {
    if s == [] then 0
    else if s[0] == 'e' || s[0] == 'E' then 0
    else 1 + ExponentIndex(s[1..])
  }

  /** 10 raised to an integer power, as a real. */
  function Scale(e: int): (r: real)
    ensures r > 0.0
  {
    if e >= 0 then Pow10(e) as real else 1.0 / Pow10(-e) as real
  }

  /**
   * A decimal number without sign: digits with at most one '.', at least one
   * digit, then optionally an exponent 'e'/'E' with optional sign and digits.
   */
  function ParseUnsignedDecimal(t: string): (r: Option<real>)
    ensures r.Some? ==> r.value >= 0.0
  {
    var e := ExponentIndex(t);
    var mantissa := t[..e];
    var exponent := if e == |t| then Some(0) else ParseSignedDigits(t[e + 1..]);
    var d := IndexOf(mantissa, '.');
    var whole := if d < 0 then mantissa else mantissa[..d];
    var frac := if d < 0 then "" else mantissa[d + 1..];
    if AllDigits(whole) && AllDigits(frac) && |whole| + |frac| > 0 && exponent.Some? then
      var x := (DigitsValue(whole) * Pow10(|frac|) + DigitsValue(frac)) as real / Pow10(|frac|) as real;
      assert x >= 0.0;
      Some(x * Scale(exponent.value))
    else None
  }

  /**
   * float(s) for a string s, for decimal notation (no inf, nan or
   * underscores). Every string int() accepts, float() accepts too, with the
   * same value, and only a leading '-' makes the value negative.
   */
  function ParseFloat(s: string): (r: Option<real>)
    ensures ParseInt(s).Some? ==> r == Some(ParseInt(s).value as real)
    ensures r.Some? ==> Strip(s) != [] && (r.value < 0.0 ==> Strip(s)[0] == '-')
  {
    var t := Strip(s);
    if ParseSignedDigits(t).Some? then
      SignedDigitsAsDecimal(t);
      ParseSignedDecimal(t)
    else
      ParseSignedDecimal(t)
  }

  /** A decimal with an optional leading sign. */
  function ParseSignedDecimal(t: string): Option<real> {
    if t != [] && (t[0] == '-' || t[0] == '+') then
      match ParseUnsignedDecimal(t[1..])
      case Some(x) => Some(if t[0] == '-' then -x else x)
      case None => None
    else ParseUnsignedDecimal(t)
  }

  lemma DigitsHaveNoMarkers(t: string)
    requires AllDigits(t)
    ensures ExponentIndex(t) == |t| && IndexOf(t, '.') < 0
  {
  }

  lemma {:induction false} UnsignedDigitsAsDecimal(t: string)
    requires IsDigitString(t)
    ensures ParseUnsignedDecimal(t) == Some(DigitsValue(t) as real)
  {
    DigitsHaveNoMarkers(t);
    assert t[..|t|] == t;
  }

  lemma SignedDigitsAsDecimal(t: string)
    requires ParseSignedDigits(t).Some?
    ensures ParseSignedDecimal(t) == Some(ParseSignedDigits(t).value as real)
  {
    if t != [] && (t[0] == '-' || t[0] == '+') {
      UnsignedDigitsAsDecimal(t[1..]);
    } else {
      UnsignedDigitsAsDecimal(t);
    }
  }

  // ---------------------------------------------------------------------------
  // Searching and splitting

  /** str.find(c): the first index of c, or -1. */
  function IndexOf(s: string, c: char): (i: int)
    ensures -1 <= i < |s|
    ensures i >= 0 ==> s[i] == c && c !in s[..i]
    ensures i < 0 ==> c !in s
  {
    if s == [] then -1
    else if s[0] == c then 0
    else
      var j := IndexOf(s[1..], c);
      if j < 0 then -1 else j + 1
  }

  /** str.rfind(c): the last index of c, or -1. */
  function LastIndexOf(s: string, c: char): (i: int)
    ensures -1 <= i < |s|
    ensures i >= 0 ==> s[i] == c && c !in s[i + 1..]
    ensures i < 0 ==> c !in s
  {
    if s == [] then -1
    else if s[|s| - 1] == c then |s| - 1
    else LastIndexOf(s[..|s| - 1], c)
  }

  /** The pieces joined back with the separator between them. */
  function Join(parts: seq<string>, c: char): string
    requires |parts| >= 1
  {
    if |parts| == 1 then parts[0] else parts[0] + [c] + Join(parts[1..], c)
  }

  /** str.split(c): the pieces between occurrences of c, always at least one. */
  function Split(s: string, c: char): (r: seq<string>)
    ensures |r| >= 1
    ensures forall k :: 0 <= k < |r| ==> c !in r[k]
    ensures Join(r, c) == s
    decreases |s|
  {
    var i := IndexOf(s, c);
    if i < 0 then [s]
    else
      var rest := Split(s[i + 1..], c);
      var r := [s[..i]] + rest;
      assert r[1..] == rest;
      forall k | 0 <= k < |r| ensures c !in r[k] {
        if k > 0 { assert r[k] == rest[k - 1]; }
      }
      assert Join(r, c) == s[..i] + [c] + s[i + 1..];
      assert s == s[..i] + [c] + s[i + 1..];
      r
  }

  predicate IsPrefix(p: string, s: string) {
    |p| <= |s| && s[..|p|] == p
  }

  /** `sub in s` for two strings: sub occurs as a contiguous piece of s. */
  function Contains(s: string, sub: string): (b: bool)
    ensures b <==> exists i :: 0 <= i <= |s| && IsPrefix(sub, s[i..])
  {
    if IsPrefix(sub, s) then
      assert s[0..] == s;
      true
    else if s == [] then
      assert forall i :: 0 <= i <= |s| ==> s[i..] == s;
      false
    else
      assert forall i :: 1 <= i <= |s| ==> s[1..][i - 1..] == s[i..];
      assert s[0..] == s;
      Contains(s[1..], sub)
  }

  // ---------------------------------------------------------------------------
  // Ordering of strings and sorted()

  /** Python's ordering of strings: lexicographic by code point; -1, 0 or 1. */
  function CompareStrings(a: string, b: string): (r: int)
    ensures -1 <= r <= 1
    ensures r == 0 <==> a == b
  {
    if a == [] then (if b == [] then 0 else -1)
    else if b == [] then 1
    else if a[0] < b[0] then -1
    else if a[0] > b[0] then 1
    else
      var r := CompareStrings(a[1..], b[1..]);
      assert a == [a[0]] + a[1..] && b == [b[0]] + b[1..];
      r
  }

  lemma {:induction false} CompareStringsFlip(a: string, b: string)
    ensures CompareStrings(b, a) == -CompareStrings(a, b)
  {
    if a != [] && b != [] && a[0] == b[0] {
      CompareStringsFlip(a[1..], b[1..]);
    }
  }

  lemma {:induction false} CompareStringsTrans(a: string, b: string, c: string)
    requires CompareStrings(a, b) <= 0 && CompareStrings(b, c) <= 0
    ensures CompareStrings(a, c) <= 0
  {
    if a != [] && b != [] && c != [] && a[0] == b[0] == c[0] {
      CompareStringsTrans(a[1..], b[1..], c[1..]);
    }
  }

  predicate SortedStrings(xs: seq<string>) {
    forall i, j :: 0 <= i < j < |xs| ==> CompareStrings(xs[i], xs[j]) <= 0
  }

  /** x may go in front of a sorted list whose head it does not exceed. */
  lemma ConsSortedStrings(x: string, xs: seq<string>)
    requires SortedStrings(xs)
    requires xs == [] || CompareStrings(x, xs[0]) <= 0
    ensures SortedStrings([x] + xs)
  {
    var r := [x] + xs;
    forall i, j | 0 <= i < j < |r| ensures CompareStrings(r[i], r[j]) <= 0 {
      if i == 0 {
        if j > 1 { CompareStringsTrans(x, xs[0], xs[j - 1]); }
      } else {
        assert r[i] == xs[i - 1] && r[j] == xs[j - 1];
      }
    }
  }

  function InsertString(x: string, xs: seq<string>): (r: seq<string>)
    requires SortedStrings(xs)
    ensures SortedStrings(r)
    ensures multiset(r) == multiset(xs) + multiset{x}
    ensures r != [] && (r[0] == x || (xs != [] && r[0] == xs[0]))
  {
    if xs == [] then [x]
    else if CompareStrings(x, xs[0]) <= 0 then
      ConsSortedStrings(x, xs);
      [x] + xs
    else
      var rest := InsertString(x, xs[1..]);
      InsertPastHead(x, xs, rest);
      [xs[0]] + rest
  }

  /** The head of a sorted list below x goes in front of x inserted into the tail. */
  lemma InsertPastHead(x: string, xs: seq<string>, rest: seq<string>)
    requires SortedStrings(xs) && xs != [] && CompareStrings(x, xs[0]) > 0
    requires SortedStrings(rest) && multiset(rest) == multiset(xs[1..]) + multiset{x}
    requires rest != [] && (rest[0] == x || (|xs| > 1 && rest[0] == xs[1]))
    ensures SortedStrings([xs[0]] + rest)
    ensures multiset([xs[0]] + rest) == multiset(xs) + multiset{x}
  {
    assert xs == [xs[0]] + xs[1..];
    CompareStringsFlip(x, xs[0]);
    assert CompareStrings(xs[0], rest[0]) <= 0 by {
      if rest[0] != x { assert rest[0] == xs[1]; }
    }
    ConsSortedStrings(xs[0], rest);
  }

  /** sorted() of a list of strings: ascending, and a permutation of the input. */
  function SortStrings(xs: seq<string>): (r: seq<string>)
    ensures SortedStrings(r)
    ensures multiset(r) == multiset(xs)
  {
    if xs == [] then []
    else
      assert xs == [xs[0]] + xs[1..];
      InsertString(xs[0], SortStrings(xs[1..]))
  }

  lemma SortedTail(a: seq<string>)
    requires SortedStrings(a) && a != []
    ensures SortedStrings(a[1..])
  {
    forall p, q | 0 <= p < q < |a[1..]| ensures CompareStrings(a[1..][p], a[1..][q]) <= 0 {
      assert a[1..][p] == a[p + 1] && a[1..][q] == a[q + 1];
    }
  }

  lemma SortedHeadIsLeast(a: seq<string>, x: string)
    requires SortedStrings(a) && x in multiset(a)
    ensures CompareStrings(a[0], x) <= 0
  {
    var j :| 0 <= j < |a| && a[j] == x;
    if j > 0 { assert CompareStrings(a[0], a[j]) <= 0; }
  }

  /** Two sorted arrangements of the same strings are the same sequence. */
  lemma {:induction false} SortedUnique(a: seq<string>, b: seq<string>)
    requires SortedStrings(a) && SortedStrings(b) && multiset(a) == multiset(b)
    ensures a == b
    decreases |a|
  {
    assert |a| == |multiset(a)| == |multiset(b)| == |b|;
    if a != [] {
      SortedHeadsEqual(a, b);
      TailsPermuted(a, b);
      SortedTail(a);
      SortedTail(b);
      SortedUnique(a[1..], b[1..]);
    }
  }

  /** Two sorted arrangements of the same strings start alike. */
  lemma SortedHeadsEqual(a: seq<string>, b: seq<string>)
    requires SortedStrings(a) && SortedStrings(b) && multiset(a) == multiset(b)
    requires a != [] && b != []
    ensures a[0] == b[0]
  {
    assert b[0] in multiset(a) && a[0] in multiset(b);
    SortedHeadIsLeast(a, b[0]);
    SortedHeadIsLeast(b, a[0]);
    CompareStringsFlip(a[0], b[0]);
  }

  /** Removing a common first element from two permutations leaves permutations. */
  lemma TailsPermuted<T>(a: seq<T>, b: seq<T>)
    requires a != [] && b != [] && a[0] == b[0] && multiset(a) == multiset(b)
    ensures multiset(a[1..]) == multiset(b[1..])
  {
    assert a == [a[0]] + a[1..];
    assert b == [b[0]] + b[1..];
    assert multiset(a) == multiset([a[0]]) + multiset(a[1..]);
    assert multiset(b) == multiset([a[0]]) + multiset(b[1..]);
    assert multiset(a[1..]) == multiset(a) - multiset([a[0]]);
  }
}
