/**
 * The pure parts of the rule builder: choosing a format handler, the
 * fingerprint a handler derives from the content, head-truncated record
 * parsing, primitive type inference for one value, the choice of a
 * datatype from a type histogram, and the shape tests behind regex
 * derivation.
 */
module RuleInference {
  import opened Wrappers
  import opened PyText
  import opened JsonValue
  import opened PathResolver

  const DEFAULT_SAMPLE_SIZE: nat := 100
  const DEFAULT_MAX_CATEGORIES: nat := 20
  const CONTENT_HASH_PREFIX_LEN: nat := 128
  const ISO_DATE_LENGTH: nat := 10
  const ISO_DATE_FIRST_DASH_POS: nat := 4
  const ISO_DATE_SECOND_DASH_POS: nat := 7

  /** The two concrete formats a handler exists for. */
  datatype Format = Csv | Json

  /** Format.value: the name written to the "dqa.format" attribute. */
  function FormatName(f: Format): (s: string)
    ensures s == "CSV" <==> f.Csv?
  {
    match f
    case Csv => "CSV"
    case Json => "JSON"
  }

  /**
   * The flowfile content, with what the decoders make of it: the text, the
   * rows a csv.DictReader yields (each a mapping from header to cell), and
   * json.loads of the text (None when it does not decode).
   */
  datatype Content = Content(text: string, csvRows: seq<Json>, decoded: Option<Json>)

  /** The hex digest of a string; SHA-256 is not part of the model. */
  type Hasher = string -> string

  // ---------------------------------------------------------------------------
  // Handlers

  /** JsonHandler.detect: the left-trimmed content opens an object or an array. */
  predicate LooksLikeJson(content: string) {
    var t := LStrip(content);
    t != [] && (t[0] == '{' || t[0] == '[')
  }

  /**
   * _detect_format: an explicit setting other than AUTO names the format
   * (an unknown name falls back to CSV); with AUTO or no setting the
   * handlers are asked in order, JSON first, and CSV accepts anything.
   */
  function DetectFormat(content: string, setting: string): (f: Format)
    ensures setting == "CSV" ==> f == Csv
    ensures setting == "JSON" ==> f == Json
    ensures setting !in {"", "AUTO", "CSV", "JSON"} ==> f == Csv
    ensures setting in {"", "AUTO"} ==> (f == Json <==> LooksLikeJson(content))
  {
    if setting != "" && setting != "AUTO" then
      if setting == "JSON" then Json else Csv
    else if LooksLikeJson(content) then Json
    else Csv
  }

  /** A line boundary of str.splitlines. */
  predicate IsLineBreak(c: char) {
    c in {'\n', '\r', '\U{0B}', '\U{0C}', '\U{1C}', '\U{1D}', '\U{1E}', '\U{85}', '\U{2028}', '\U{2029}'}
  }

  /** content.splitlines()[0] for non-empty content: everything before the first line boundary. */
  function FirstLine(s: string): (r: string)
    ensures IsPrefix(r, s)
    ensures forall k :: 0 <= k < |r| ==> !IsLineBreak(r[k])
    ensures |r| < |s| ==> IsLineBreak(s[|r|])
  {
    if s == [] || IsLineBreak(s[0]) then []
    else [s[0]] + FirstLine(s[1..])
  }

  /** "|".join(keys), which is empty for no keys. */
  function JoinKeys(keys: seq<string>): string {
    if keys == [] then "" else Join(keys, '|')
  }

  /** The text a JSON fingerprint hashes, None where the handler falls back to the content prefix. */
  function JsonKeyText(data: Json): (r: Option<string>)
    ensures data.Obj? ==> r == Some(JoinKeys(SortStrings(Keys(data.fields))))
    ensures data.Arr? && data.items != [] && !data.items[0].Obj? ==> r.None?
    ensures !data.Obj? && !(data.Arr? && data.items != []) ==> r == Some("")
  {
    match data
    case Arr(xs) =>
      if xs == [] then Some("")
      else if xs[0].Obj? then Some(JoinKeys(SortStrings(Keys(xs[0].fields))))
      else None
    case Obj(fs) => Some(JoinKeys(SortStrings(Keys(fs))))
    case _ => Some("")
  }

  /**
   * handler.fingerprint: CSV hashes the header line; JSON hashes the sorted
   * top-level keys (of the first element of a list), or the first 128
   * characters when the content does not decode or its first element is
   * not an object.
   */
  function Fingerprint(f: Format, content: Content, hash: Hasher): (r: string)
    ensures f.Csv? ==> r == hash(if content.text == "" then "" else FirstLine(content.text))
    ensures f.Json? && content.decoded.Some? && JsonKeyText(content.decoded.value).Some? ==>
              r == hash(JsonKeyText(content.decoded.value).value)
    ensures f.Json? && (content.decoded.None? || JsonKeyText(content.decoded.value).None?) ==>
              r == hash(content.text[..Min(CONTENT_HASH_PREFIX_LEN, |content.text|)])
  {
    match f
    case Csv => hash(if content.text == "" then "" else FirstLine(content.text))
    case Json =>
      var fallback := hash(content.text[..Min(CONTENT_HASH_PREFIX_LEN, |content.text|)]);
      match content.decoded
      case None => fallback
      case Some(data) =>
        match JsonKeyText(data)
        case Some(t) => hash(t)
        case None => fallback
  }

  function Min(a: nat, b: nat): (m: nat)
    ensures m <= a && m <= b && (m == a || m == b)
  {
    if a <= b then a else b
  }

  /** A JSON object's fingerprint depends on its set of keys, not on their order. */
  lemma FingerprintIgnoresKeyOrder(a: seq<(string, Json)>, b: seq<(string, Json)>)
    requires multiset(Keys(a)) == multiset(Keys(b))
    ensures JsonKeyText(Obj(a)) == JsonKeyText(Obj(b))
  {
    SortedUnique(SortStrings(Keys(a)), SortStrings(Keys(b)));
  }

  /**
   * handler.parse_records: CSV keeps the first sample_size rows; JSON
   * makes an object a one-record list, cuts a list to its first
   * sample_size elements, and raises for anything else or undecodable text.
   */
  function ParseRecords(f: Format, content: Content, sampleSize: nat): (r: Result<seq<Json>, Failure>)
    ensures f.Csv? ==> r.Ok? && r.value == content.csvRows[..Min(sampleSize, |content.csvRows|)]
    ensures f.Json? ==> (r.Ok? <==> content.decoded.Some? && (content.decoded.value.Obj? || content.decoded.value.Arr?))
    ensures f.Json? && r.Ok? && content.decoded.value.Obj? ==> r.value == [content.decoded.value]
    ensures f.Json? && r.Ok? && content.decoded.value.Arr? ==>
              var xs := content.decoded.value.items;
              |r.value| == Min(sampleSize, |xs|) && r.value == xs[..|r.value|]
  {
    match f
    case Csv => Ok(content.csvRows[..Min(sampleSize, |content.csvRows|)])
    case Json =>
      match content.decoded
      case None => Err(Raised("JSONDecodeError"))
      case Some(Obj(fs)) => Ok([Obj(fs)])
      case Some(Arr(xs)) => Ok(xs[..Min(sampleSize, |xs|)])
      case Some(_) => Err(Raised("ValueError"))
  }

  // ---------------------------------------------------------------------------
  // Type inference

  /** The internal types of inference, in the order the labels are listed. */
  datatype InferredType = BoolType | IntType | FloatType | StringType

  /** ASCII lower-casing of one character. */
  function LowerChar(c: char): char {
    if 'A' <= c <= 'Z' then (c as int + 32) as char else c
  }

  function Lower(s: string): (r: string)
    ensures |r| == |s| && forall k :: 0 <= k < |s| ==> r[k] == LowerChar(s[k])
  {
    if s == [] then [] else [LowerChar(s[0])] + Lower(s[1..])
  }

  /**
   * _infer_type: a native bool, int or float keeps its type; a string is
   * tried as "true"/"false" ignoring case, then int(), then float(); the
   * rest is a string.
   */
  function InferType(v: Json): (t: InferredType)
    ensures v.Bool? ==> t == BoolType
    ensures v.Int? ==> t == IntType
    ensures v.Num? ==> t == FloatType
    ensures v.Str? && Lower(v.s) in {"true", "false"} ==> t == BoolType
    ensures v.Str? && Lower(v.s) !in {"true", "false"} && ParseInt(v.s).Some? ==> t == IntType
    ensures v.Str? && ParseInt(v.s).None? && t == FloatType ==> ParseFloat(v.s).Some?
    ensures v.Str? && Lower(v.s) !in {"true", "false"} && ParseInt(v.s).None? && ParseFloat(v.s).Some? ==> t == FloatType
    ensures v.Str? && Lower(v.s) !in {"true", "false"} && ParseFloat(v.s).None? ==> t == StringType
    ensures v.Null? || v.Arr? || v.Obj? ==> t == StringType
    ensures t == StringType ==> !IsNumber(v) && !(v.Str? && (ParseFloat(v.s).Some? || ParseInt(v.s).Some?))
    ensures (t == IntType || t == FloatType) ==> IsNumber(v) || (v.Str? && ParseFloat(v.s).Some?)
  {
    match v
    case Bool(_) => BoolType
    case Int(_) => IntType
    case Num(_) => FloatType
    case Str(s) =>
      if Lower(s) in {"true", "false"} then BoolType
      else if ParseInt(s).Some? then IntType
      else if ParseFloat(s).Some? then FloatType
      else StringType
    case _ => StringType
  }

  /** The boolean spellings are not integers: they start with a letter. */
  lemma BoolWordsAreNotInts(s: string)
    requires Lower(s) in {"true", "false"}
    ensures ParseInt(s).None?
  {
    var l := Lower(s);
    assert |s| == |l| >= 4;
    assert 'a' <= l[0] <= 'z' && 'a' <= l[|l| - 1] <= 'z';
    LowerOfLetter(s[0]);
    LowerOfLetter(s[|s| - 1]);
    LetterLedNotInt(s);
  }

  /** int() refuses an unpadded string that starts with neither digit nor sign. */
  lemma LetterLedNotInt(s: string)
    requires s != [] && !IsSpace(s[0]) && !IsSpace(s[|s| - 1])
    requires !IsDigit(s[0]) && s[0] != '-' && s[0] != '+'
    ensures ParseInt(s).None?
  {
    StripOfUnpadded(s);
  }

  /** A character lower-casing to a letter is a letter, so neither blank, digit nor sign. */
  lemma LowerOfLetter(c: char)
    requires 'a' <= LowerChar(c) <= 'z'
    ensures !IsSpace(c) && !IsDigit(c) && c != '-' && c != '+'
  {
  }

  /** A string that int() accepts is inferred INTEGER, never FLOAT. */
  lemma IntStringsAreIntegers(s: string)
    requires ParseInt(s).Some?
    ensures InferType(Str(s)) == IntType
  {
    if Lower(s) in {"true", "false"} {
      BoolWordsAreNotInts(s);
    }
  }

  /** The value float() gives for something inferred INTEGER or FLOAT. */
  function NumericValue(v: Json): (x: real)
    requires InferType(v) in {IntType, FloatType}
    ensures v.Int? ==> x == v.i as real
    ensures v.Num? ==> x == v.r
    ensures v.Str? ==> ParseFloat(v.s) == Some(x)
  {
    match v
    case Int(i) => i as real
    case Num(r) => r
    case Str(s) => ParseFloat(s).value
  }

  // ---------------------------------------------------------------------------
  // Choosing a datatype

  /** The type histogram: counts per inferred type, in first-counted order. */
  type TypeCounts = seq<(InferredType, nat)>

  /** Position of Counter.most_common(1)[0]: a largest count, the earliest among equals. */
  function MostCommon(tc: TypeCounts): (i: nat)
    requires tc != []
    ensures i < |tc|
    ensures forall k :: 0 <= k < |tc| ==> tc[k].1 <= tc[i].1
    ensures forall k :: 0 <= k < i ==> tc[k].1 < tc[i].1
  {
    if |tc| == 1 then 0
    else
      var j := MostCommon(tc[..|tc| - 1]);
      if tc[|tc| - 1].1 > tc[j].1 then |tc| - 1 else j
  }

  /** The DQA datatype label of an inferred type. */
  function TypeLabel(t: InferredType): string {
    match t
    case BoolType => "BOOLEAN"
    case IntType => "INTEGER"
    case FloatType => "FLOAT"
    case StringType => "STRING"
  }

  /** _choose_type: the label of the most frequent inferred type, STRING for an empty histogram. */
  function ChooseType(tc: TypeCounts): (name: string)
    ensures tc == [] ==> name == "STRING"
    ensures tc != [] ==> exists i :: 0 <= i < |tc| && name == TypeLabel(tc[i].0)
                            && (forall k :: 0 <= k < |tc| ==> tc[k].1 <= tc[i].1)
                            && (forall k :: 0 <= k < i ==> tc[k].1 < tc[i].1)
    ensures name in {"BOOLEAN", "INTEGER", "FLOAT", "STRING"}
  {
    if tc == [] then "STRING" else TypeLabel(tc[MostCommon(tc)].0)
  }

  // ---------------------------------------------------------------------------
  // Shapes

  /** _looks_iso_date: a YYYY-MM-DD prefix. */
  function LooksIsoDate(s: string): (b: bool)
    ensures b <==> |s| >= ISO_DATE_LENGTH && s[4] == '-' && s[7] == '-'
                   && forall k :: 0 <= k < ISO_DATE_LENGTH && k != 4 && k != 7 ==> IsDigit(s[k])
  {
    if |s| < ISO_DATE_LENGTH then false
    else
      var prefix := s[..ISO_DATE_LENGTH];
      && prefix[ISO_DATE_FIRST_DASH_POS] == '-'
      && prefix[ISO_DATE_SECOND_DASH_POS] == '-'
      && IsDigitString(prefix[..ISO_DATE_FIRST_DASH_POS])
      && IsDigitString(prefix[ISO_DATE_FIRST_DASH_POS + 1..ISO_DATE_SECOND_DASH_POS])
      && IsDigitString(prefix[ISO_DATE_SECOND_DASH_POS + 1..ISO_DATE_LENGTH])
  }

  /** The samples regex derivation looks at: str() of the strings, numbers and booleans. */
  function RenderedSamples(samples: seq<Json>): (r: seq<string>)
    ensures |r| <= |samples|
    ensures (forall k :: 0 <= k < |samples| ==> samples[k].Str?) ==>
              |r| == |samples| && forall k :: 0 <= k < |samples| ==> r[k] == samples[k].s
  {
    if samples == [] then []
    else
      var head := samples[0];
      assert forall k :: 1 <= k < |samples| ==> samples[1..][k - 1] == samples[k];
      (if head.Str? || IsNumber(head) then [PyStr(head)] else []) + RenderedSamples(samples[1..])
  }

  /** The digit-run pattern for length n. */
  function DigitsPattern(n: nat): (p: string)
    ensures p != DATE_PATTERN
  {
    assert DATE_PATTERN[|DATE_PATTERN| - 1] == '}';
    "^\\d{" + NatToString(n) + "}$"
  }

  const DATE_PATTERN: string := "^\\d{4}-\\d{2}-\\d{2}"

  /** All strings have the same length and consist of digits only. */
  predicate UniformDigits(ss: seq<string>) {
    ss != [] && forall k :: 0 <= k < |ss| ==> |ss[k]| == |ss[0]| && IsDigitString(ss[k])
  }

  /**
   * _derive_regex: a fixed-width digit pattern when every sample is a
   * digit run of one common length, else the date-prefix pattern when
   * every sample starts like YYYY-MM-DD, else nothing; no samples, nothing.
   */
  function DeriveRegex(samples: seq<Json>): (r: Option<string>)
    ensures RenderedSamples(samples) == [] ==> r.None?
    ensures UniformDigits(RenderedSamples(samples)) ==>
              r == Some(DigitsPattern(|RenderedSamples(samples)[0]|))
    ensures r == Some(DATE_PATTERN) ==>
              forall k :: 0 <= k < |RenderedSamples(samples)| ==> LooksIsoDate(RenderedSamples(samples)[k])
    ensures r.Some? ==> r.value == DATE_PATTERN || UniformDigits(RenderedSamples(samples))
    ensures RenderedSamples(samples) != [] && !UniformDigits(RenderedSamples(samples))
            && (forall k :: 0 <= k < |RenderedSamples(samples)| ==> LooksIsoDate(RenderedSamples(samples)[k])) ==>
              r == Some(DATE_PATTERN)
  {
    var ss := RenderedSamples(samples);
    if ss == [] then None
    else if (forall k :: 0 <= k < |ss| ==> |ss[k]| == |ss[0]|) && (forall k :: 0 <= k < |ss| ==> IsDigitString(ss[k])) then
      Some(DigitsPattern(|ss[0]|))
    else if forall k :: 0 <= k < |ss| ==> LooksIsoDate(ss[k]) then Some(DATE_PATTERN)
    else None
  }
}
