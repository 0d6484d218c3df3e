/**
 * Decoded JSON (or YAML) values, and the Python operations the processors
 * apply to them: truthiness, `==`, the ordering operators, `in`, `d.get(k)`
 * and `str()`. Python's bool is a subclass of int, so booleans take part in
 * numeric equality and comparison as 0 and 1.
 */
module JsonValue {
  import opened Wrappers
  import opened PyText

  /** A decoded document value; an object keeps its keys in document order. */
  datatype Json =
    | Null
    | Bool(b: bool)
    | Int(i: int)
    | Num(r: real)
    | Str(s: string)
    | Arr(items: seq<Json>)
    | Obj(fields: seq<(string, Json)>)

  /** Neither a list nor a mapping. */
  predicate IsScalar(j: Json) {
    !j.Arr? && !j.Obj?
  }

  /** isinstance(v, (int, float)): bool, int or float. */
  predicate IsNumber(j: Json) {
    j.Bool? || j.Int? || j.Num?
  }

  /** isinstance(v, int), which booleans satisfy too. */
  predicate IsPyInt(j: Json) {
    j.Bool? || j.Int?
  }

  /** The numeric value Python uses for a bool, int or float. */
  function NumberValue(j: Json): real
    requires IsNumber(j)
  {
    match j
    case Bool(b) => if b then 1.0 else 0.0
    case Int(i) => i as real
    case Num(r) => r
  }

  /** bool(v). */
  predicate Truthy(j: Json) {
    match j
    case Null => false
    case Bool(b) => b
    case Int(i) => i != 0
    case Num(r) => r != 0.0
    case Str(s) => s != ""
    case Arr(xs) => xs != []
    case Obj(fs) => fs != []
  }

  function Keys(fields: seq<(string, Json)>): (ks: seq<string>)
    ensures |ks| == |fields|
    ensures forall i :: 0 <= i < |fields| ==> ks[i] == fields[i].0
  {
    if fields == [] then [] else [fields[0].0] + Keys(fields[1..])
  }

  /** d.get(key) on a mapping: the value of the first entry with that key. */
  function Lookup(fields: seq<(string, Json)>, key: string): (r: Option<Json>)
    ensures r.Some? <==> key in Keys(fields)
    ensures r.Some? ==> exists i :: 0 <= i < |fields| && fields[i] == (key, r.value)
    ensures r.Some? && fields != [] && fields[0].0 == key ==> r.value == fields[0].1
  {
    if fields == [] then None
    else if fields[0].0 == key then Some(fields[0].1)
    else
      var r := Lookup(fields[1..], key);
      assert Keys(fields) == [fields[0].0] + Keys(fields[1..]);
      assert r.Some? ==> exists i :: 0 <= i < |fields| && fields[i] == (key, r.value) by {
        if r.Some? {
          var i :| 0 <= i < |fields[1..]| && fields[1..][i] == (key, r.value);
          assert fields[i + 1] == (key, r.value);
        }
      }
      r
  }

  /** v.get(key) when v is a mapping, None for anything else. */
  function Get(j: Json, key: string): Option<Json> {
    if j.Obj? then Lookup(j.fields, key) else None
  }

  /** Mappings whose keys are distinct, at every depth (what a decoder produces). */
  ghost predicate WellFormed(j: Json) {
    match j
    case Arr(xs) => forall i :: 0 <= i < |xs| ==> WellFormed(xs[i])
    case Obj(fs) =>
      && (forall i, k :: 0 <= i < k < |fs| ==> fs[i].0 != fs[k].0)
      && (forall i :: 0 <= i < |fs| ==> WellFormed(fs[i].1))
    case _ => true
  }

  /** Python `a == b` between decoded values. */
  predicate PyEq(a: Json, b: Json)
    decreases a
  {
    if IsNumber(a) && IsNumber(b) then NumberValue(a) == NumberValue(b)
    else match a
      case Null => b.Null?
      case Str(x) => b.Str? && b.s == x
      case Arr(xs) =>
        b.Arr? && |xs| == |b.items| && forall i :: 0 <= i < |xs| ==> PyEq(xs[i], b.items[i])
      case Obj(fs) =>
        && b.Obj? && |fs| == |b.fields|
        && forall i :: 0 <= i < |fs| ==>
             var other := Lookup(b.fields, fs[i].0);
             other.Some? && PyEq(fs[i].1, other.value)
      case _ => false
  }

  /** The first entry carrying a key is the one Lookup finds. */
  lemma {:induction false} LookupAt(fs: seq<(string, Json)>, key: string, i: nat)
    requires i < |fs| && fs[i].0 == key
    requires forall p :: 0 <= p < i ==> fs[p].0 != key
    ensures Lookup(fs, key) == Some(fs[i].1)
  {
    if i > 0 {
      assert fs[0].0 != key;
      assert forall p :: 0 <= p < i - 1 ==> fs[1..][p] == fs[p + 1];
      LookupAt(fs[1..], key, i - 1);
    }
  }

  lemma LookupUnique(fs: seq<(string, Json)>, i: int)
    requires 0 <= i < |fs|
    requires forall p, q :: 0 <= p < q < |fs| ==> fs[p].0 != fs[q].0
    ensures Lookup(fs, fs[i].0) == Some(fs[i].1)
  {
    if i > 0 {
      assert fs[0].0 != fs[i].0;
      LookupUnique(fs[1..], i - 1);
    }
  }

  /** `==` is reflexive on well-formed values. */
  lemma {:induction false} PyEqReflexive(a: Json)
    requires WellFormed(a)
    ensures PyEq(a, a)
    decreases a
  {
    match a
    case Arr(xs) =>
      forall i | 0 <= i < |xs| ensures PyEq(xs[i], xs[i]) {
        PyEqReflexive(xs[i]);
      }
    case Obj(fs) =>
      forall i | 0 <= i < |fs| ensures Lookup(fs, fs[i].0) == Some(fs[i].1) && PyEq(fs[i].1, fs[i].1) {
        LookupUnique(fs, i);
        PyEqReflexive(fs[i].1);
      }
    case _ =>
  }

  function Sign(x: real): (r: int)
    ensures -1 <= r <= 1
    ensures r == 0 <==> x == 0.0
    ensures r < 0 <==> x < 0.0
  {
    if x < 0.0 then -1 else if x > 0.0 then 1 else 0
  }

  /**
   * Python's ordering between two values, as -1, 0 or 1, or None where the
   * comparison raises TypeError. Numbers compare by value, strings by code
   * point, lists lexicographically (equal heads skipped by `==`, then the
   * first differing pair decides, else the shorter list is smaller).
   */
  function Compare(a: Json, b: Json): (r: Option<int>)
    ensures r.Some? ==> -1 <= r.value <= 1
    ensures IsNumber(a) && IsNumber(b) ==>
              r.Some? && (r.value <= 0 <==> NumberValue(a) <= NumberValue(b))
                      && (r.value >= 0 <==> NumberValue(a) >= NumberValue(b))
    ensures a.Str? && b.Str? ==> r.Some? && (r.value == 0 <==> a == b)
    ensures IsNumber(a) != IsNumber(b) ==> r.None?
    ensures a.Null? || b.Null? || a.Obj? || b.Obj? ==> r.None?
    decreases a
  {
    if IsNumber(a) && IsNumber(b) then Some(Sign(NumberValue(a) - NumberValue(b)))
    else match a
      case Str(x) => if b.Str? then Some(CompareStrings(x, b.s)) else None
      case Arr(xs) => if b.Arr? then CompareLists(xs, b.items) else None
      case _ => None
  }

  function CompareLists(xs: seq<Json>, ys: seq<Json>): (r: Option<int>)
    ensures r.Some? ==> -1 <= r.value <= 1
    decreases xs
  {
    if xs == [] || ys == [] then
      Some(if |xs| < |ys| then -1 else if |xs| > |ys| then 1 else 0)
    else if PyEq(xs[0], ys[0]) then CompareLists(xs[1..], ys[1..])
    else Compare(xs[0], ys[0])
  }

  /** `a <= b`, None where Python raises TypeError. */
  function LessEq(a: Json, b: Json): Option<bool> {
    match Compare(a, b)
    case Some(c) => Some(c <= 0)
    case None => None
  }

  /** `a >= b`, None where Python raises TypeError. */
  function GreaterEq(a: Json, b: Json): Option<bool> {
    match Compare(a, b)
    case Some(c) => Some(c >= 0)
    case None => None
  }

  /** `a < b`, None where Python raises TypeError. */
  function Less(a: Json, b: Json): Option<bool> {
    match Compare(a, b)
    case Some(c) => Some(c < 0)
    case None => None
  }

  /** `a > b`, None where Python raises TypeError. */
  function Greater(a: Json, b: Json): Option<bool> {
    match Compare(a, b)
    case Some(c) => Some(c > 0)
    case None => None
  }

  /** Some element of xs is `==` to x. */
  predicate AnyEq(x: Json, xs: seq<Json>) {
    exists i :: 0 <= i < |xs| && PyEq(x, xs[i])
  }

  /**
   * Python `x in c`: element equality for a list, key membership for a
   * mapping (TypeError for an unhashable x), substring for a string (TypeError
   * unless x is a string); any other container raises TypeError (None here).
   */
  function PyIn(x: Json, c: Json): (r: Option<bool>)
    ensures c.Arr? ==> r == Some(AnyEq(x, c.items))
    ensures c.Obj? ==> (r.Some? <==> IsScalar(x))
    ensures c.Obj? && x.Str? ==> r == Some(x.s in Keys(c.fields))
    ensures c.Str? ==> (r.Some? <==> x.Str?)
    ensures c.Null? || IsNumber(c) ==> r.None?
  {
    match c
    case Arr(ys) => Some(AnyEq(x, ys))
    case Obj(fs) => if IsScalar(x) then Some(x.Str? && x.s in Keys(fs)) else None
    case Str(t) => if x.Str? then Some(Contains(t, x.s)) else None
    case _ => None
  }

  // ---------------------------------------------------------------------------
  // str() and repr()

  /** Digits of a fraction in [0, 1), n places, most significant first. */
  function FractionDigits(f: real, n: nat): (r: string)
    requires 0.0 <= f < 1.0
    ensures |r| == n && AllDigits(r)
    decreases n
  {
    if n == 0 then ""
    else
      var d := (f * 10.0).Floor;
      assert 0 <= d < 10;
      [DigitChar(d)] + FractionDigits(f * 10.0 - d as real, n - 1)
  }

  /** The string without its trailing '0' characters, keeping at least one character. */
  function TrimZeros(s: string): (r: string)
    requires s != []
    ensures r != [] && |r| <= |s| && r == s[..|r|]
  {
    if |s| > 1 && s[|s| - 1] == '0' then TrimZeros(s[..|s| - 1]) else s
  }

  /**
   * repr() of a float in positional notation: the integer part, a point and
   * the fraction to at most 17 places with trailing zeros dropped ("3.0",
   * "0.25").
   */
  function FloatRepr(r: real): (s: string)
    ensures '.' in s
  {
    var m := if r < 0.0 then -r else r;
    var whole := m.Floor;
    var body := NatToString(whole) + "." + TrimZeros(FractionDigits(m - whole as real, 17));
    assert body[|NatToString(whole)|] == '.';
    if r < 0.0 then "-" + body else body
  }

  /**
   * A character repr() writes as a \xhh escape: the ASCII controls other
   * than tab, newline and carriage return, DEL, and the Latin-1 characters
   * Python does not count as printable (U+0080 to U+00A0 and U+00AD).
   */
  predicate HexEscaped(c: char) {
    (c < ' ' && c != '\t' && c != '\n' && c != '\r') || c as int == 0x7F || 0x80 <= c as int <= 0xA0 || c as int == 0xAD
  }

  /** A character repr() writes as it is: neither \xhh-escaped nor tab, newline or carriage return. */
  predicate Printed(c: char) {
    !HexEscaped(c) && c !in "\t\n\r"
  }

  function HexDigitChar(d: nat): (c: char)
    requires d < 16
    ensures HexValue(c) == Some(d)
  {
    if d < 10 then DigitChar(d) else ('a' as int + d - 10) as char
  }

  /** The value of a lower-case hexadecimal digit. */
  function HexValue(c: char): (r: Option<nat>)
    ensures r.Some? ==> r.value < 16
  {
    if '0' <= c <= '9' then Some(c as int - '0' as int)
    else if 'a' <= c <= 'f' then Some(c as int - 'a' as int + 10)
    else None
  }

  /** How repr() writes one character of a string quoted with `quote`. */
  function CharEscape(c: char, quote: char): (r: string)
    requires quote == '\'' || quote == '"'
    ensures |r| >= 1 && forall i :: 0 <= i < |r| ==> Printed(r[i])
  {
    if c == quote || c == '\\' then ['\\', c]
    else if c == '\t' then "\\t"
    else if c == '\n' then "\\n"
    else if c == '\r' then "\\r"
    else if HexEscaped(c) then
      assert c as int < 256;
      "\\x" + [HexDigitChar(c as int / 16), HexDigitChar(c as int % 16)]
    else [c]
  }

  /** The characters of s as repr() writes them between the quotes. */
  function Escaped(s: string, quote: char): (r: string)
    requires quote == '\'' || quote == '"'
    ensures |r| >= |s|
    ensures forall i :: 0 <= i < |r| ==> Printed(r[i])
  {
    if s == [] then ""
    else
      var head := CharEscape(s[0], quote);
      var tail := Escaped(s[1..], quote);
      assert forall i :: |head| <= i < |head + tail| ==> (head + tail)[i] == tail[i - |head|];
      head + tail
  }

  /**
   * repr() of a string: single quotes, or double quotes if it holds single
   * quotes and no double ones; the chosen quote and backslashes are escaped,
   * tab, newline and carriage return become \t, \n and \r, and unprintable
   * characters \xhh.
   */
  function StrRepr(s: string): (r: string)
    ensures |r| >= |s| + 2
    ensures forall i :: 0 <= i < |r| ==> Printed(r[i])
    ensures r[0] == r[|r| - 1] == QuoteFor(s)
    ensures Unescape(r[1..|r| - 1], QuoteFor(s)) == Some(s)
  {
    var q := QuoteFor(s);
    var body := Escaped(s, q);
    UnescapeEscaped(s, q);
    assert ([q] + body + [q])[1..|body| + 1] == body;
    [q] + body + [q]
  }

  /** The quote repr() puts around s. */
  function QuoteFor(s: string): (q: char)
    ensures q == '\'' || q == '"'
  {
    if '\'' in s && '"' !in s then '"' else '\''
  }

  /** Reads back the body of a string's repr(): the inverse of Escaped. */
  function Unescape(t: string, quote: char): Option<string>
    requires quote == '\'' || quote == '"'
  {
    if t == [] then Some([])
    else if t[0] != '\\' then
      var rest :- Unescape(t[1..], quote);
      Some([t[0]] + rest)
    else if |t| < 2 then None
    else if t[1] == 't' || t[1] == 'n' || t[1] == 'r' then
      var rest :- Unescape(t[2..], quote);
      Some([if t[1] == 't' then '\t' else if t[1] == 'n' then '\n' else '\r'] + rest)
    else if t[1] == 'x' then
      if |t| < 4 || HexValue(t[2]).None? || HexValue(t[3]).None? then None
      else
        var code := HexValue(t[2]).value * 16 + HexValue(t[3]).value;
        var rest :- Unescape(t[4..], quote);
        Some([code as char] + rest)
    else if t[1] == quote || t[1] == '\\' then
      var rest :- Unescape(t[2..], quote);
      Some([t[1]] + rest)
    else None
  }

  /** One escaped character followed by more text reads back as that character first. */
  lemma UnescapeChar(c: char, quote: char, rest: string)
    requires quote == '\'' || quote == '"'
    ensures Unescape(CharEscape(c, quote) + rest, quote)
            == (match Unescape(rest, quote) case Some(u) => Some([c] + u) case None => None)
  {
    var e := CharEscape(c, quote);
    var t := e + rest;
    if c == quote || c == '\\' {
      assert t[2..] == rest;
    } else if c == '\t' || c == '\n' || c == '\r' {
      assert t[2..] == rest;
    } else if HexEscaped(c) {
      assert t[4..] == rest;
      assert HexValue(t[2]).value * 16 + HexValue(t[3]).value == c as int;
    } else {
      assert t[1..] == rest;
    }
  }

  /** Unescape undoes Escaped. */
  lemma {:induction false} UnescapeEscaped(s: string, quote: char)
    requires quote == '\'' || quote == '"'
    ensures Unescape(Escaped(s, quote), quote) == Some(s)
  {
    if s != [] {
      var rest := Escaped(s[1..], quote);
      assert Escaped(s, quote) == CharEscape(s[0], quote) + rest;
      UnescapeEscaped(s[1..], quote);
      UnescapeChar(s[0], quote, rest);
      assert [s[0]] + s[1..] == s;
    }
  }

  /** Text without quotes, backslashes or characters repr() escapes is quoted as it is. */
  lemma {:induction false} PlainStrRepr(s: string)
    requires forall i :: 0 <= i < |s| ==> s[i] !in "'\"\\\t\n\r" && !HexEscaped(s[i])
    ensures StrRepr(s) == "'" + s + "'"
  {
    PlainEscaped(s, '\'');
  }

  lemma {:induction false} PlainEscaped(s: string, quote: char)
    requires forall i :: 0 <= i < |s| ==> s[i] !in "'\"\\\t\n\r" && !HexEscaped(s[i])
    requires quote == '\'' || quote == '"'
    ensures Escaped(s, quote) == s
  {
    if s != [] {
      PlainEscaped(s[1..], quote);
      assert [s[0]] + s[1..] == s;
    }
  }

  /** repr(v). */
  function Repr(j: Json): string
    decreases j, 1
  {
    match j
    case Null => "None"
    case Bool(b) => if b then "True" else "False"
    case Int(i) => IntToString(i)
    case Num(r) => FloatRepr(r)
    case Str(s) => StrRepr(s)
    case Arr(xs) => "[" + ReprItems(xs) + "]"
    case Obj(fs) => "{" + ReprFields(j, 0) + "}"
  }

  function ReprItems(xs: seq<Json>): string
    decreases xs
  {
    if xs == [] then ""
    else if |xs| == 1 then Repr(xs[0])
    else Repr(xs[0]) + ", " + ReprItems(xs[1..])
  }

  /** The entries of mapping j from position k on, as "key: value" pairs. */
  function ReprFields(j: Json, k: nat): string
    requires j.Obj? && k <= |j.fields|
    decreases j, 0, |j.fields| - k
  {
    if k == |j.fields| then ""
    else
      var entry := StrRepr(j.fields[k].0) + ": " + Repr(j.fields[k].1);
      if k + 1 == |j.fields| then entry else entry + ", " + ReprFields(j, k + 1)
  }

  /** str() of a one-entry mapping with a string value writes the repr() of both key and value. */
  lemma SingleEntryStr(k: string, v: string)
    ensures PyStr(Obj([(k, Str(v))])) == "{" + StrRepr(k) + ": " + StrRepr(v) + "}"
  {
    var j := Obj([(k, Str(v))]);
    assert PyStr(j) == Repr(j);
    SingleEntryRepr(k, v);
  }

  lemma SingleEntryRepr(k: string, v: string)
    ensures Repr(Obj([(k, Str(v))])) == "{" + StrRepr(k) + ": " + StrRepr(v) + "}"
  {
    var j := Obj([(k, Str(v))]);
    assert ReprFields(j, 0) == StrRepr(k) + ": " + Repr(Str(v));
  }

  /** A newline in a string is written as backslash-n by repr(), as inside a mapping's str(). */
  lemma NewlineEscaped()
    ensures StrRepr("x\ny") == "'x\\ny'"
  {
    assert QuoteFor("x\ny") == '\'';
    assert Escaped("y", '\'') == "y";
    assert Escaped("\ny", '\'') == "\\n" + Escaped("y", '\'');
    assert Escaped("x\ny", '\'') == "x" + Escaped("\ny", '\'');
  }

  /** str(v): a string is itself, anything else its repr(). */
  function PyStr(j: Json): (s: string)
    ensures j.Str? ==> s == j.s
    ensures j.Int? ==> ParseInt(s) == Some(j.i)
    ensures j.Null? ==> s == "None"
  {
    if j.Int? then ParseIntOfIntToString(j.i); IntToString(j.i)
    else if j.Str? then j.s
    else Repr(j)
  }
}
