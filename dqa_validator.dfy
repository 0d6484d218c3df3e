/**
 * The rule evaluator (StandardValidator): a list of rules, each naming a
 * check kind, a feature path and its specs, applied to one decoded record.
 * Every check resolves the path to a list of values, records zero or one
 * boolean per value, and reports the conjunction of what it recorded. A
 * Python exception anywhere (a missing key, a comparison between a string
 * and a number, a bad pattern) aborts the whole evaluation, which the host
 * then routes to "failure".
 */
module DqaValidator {
  import opened Wrappers
  import opened PyText
  import opened JsonValue
  import opened PathResolver

  /** re.fullmatch(pattern, text): whether it matched, or None when the pattern does not compile. */
  type FullMatch = (string, string) -> Option<bool>

  /** One entry of the "validations" list. */
  datatype Validation = Validation(kind: string, feature: string, checks: seq<bool>, result: bool, description: string)

  /** The output document; the "ts" clock reading is not part of the model. */
  datatype Report = Report(validatorId: string, sample: Json, validations: seq<Validation>)

  /** A constructed validator: its identifier and the rule list of its configuration. */
  datatype StandardValidator = StandardValidator(validatorId: string, rules: seq<Json>)

  /** The six rule kinds the evaluator dispatches on. */
  datatype Kind = Domain | Strlen | DataType | Categorical | Exists | Regex

  /** The relationship a flowfile is sent to. */
  datatype Route = Valid(report: Report) | Invalid(report: Report) | Failed

  /** Python's all(): true when no element is false. */
  function All(cs: seq<bool>): (b: bool)
    ensures b <==> forall k :: 0 <= k < |cs| ==> cs[k]
    ensures cs == [] ==> b
  {
    if cs == [] then true else cs[0] && All(cs[1..])
  }

  /** A result whose "result" field is the conjunction of its "checks". */
  predicate Conjoined(v: Validation) {
    v.result <==> forall k :: 0 <= k < |v.checks| ==> v.checks[k]
  }

  /** The result entry of a check: kind, feature, the recorded checks and their conjunction. */
  function Finish(kind: string, feature: string, checks: seq<bool>): (v: Validation)
    ensures v.kind == kind && v.feature == feature && v.checks == checks && v.description == ""
    ensures v.result <==> forall k :: 0 <= k < |checks| ==> checks[k]
  {
    Validation(kind, feature, checks, All(checks), "")
  }

  /** v[key]: KeyError for a mapping without the key, TypeError for anything else. */
  function Subscript(j: Json, key: string): (r: Result<Json, Failure>)
    ensures r.Ok? <==> j.Obj? && key in Keys(j.fields)
    ensures r.Ok? ==> Lookup(j.fields, key) == Some(r.value)
  {
    if !j.Obj? then Err(Raised("TypeError"))
    else match Lookup(j.fields, key)
      case Some(v) => Ok(v)
      case None => Err(Raised("KeyError"))
  }

  /**
   * Applies a per-value check to every value in order: Some(b) records b,
   * None records nothing, and the first failure aborts.
   */
  function CheckEach(values: seq<Json>, check: Json -> Result<Option<bool>, Failure>): (r: Result<seq<bool>, Failure>)
    ensures r.Ok? <==> forall k :: 0 <= k < |values| ==> check(values[k]).Ok?
    ensures r.Ok? ==> |r.value| <= |values|
    decreases |values|
  {
    if values == [] then Ok([])
    else
      var head :- check(values[0]);
      var tail := CheckEach(values[1..], check);
      assert forall k :: 1 <= k < |values| ==> values[1..][k - 1] == values[k];
      if tail.Err? then Err(tail.error)
      else Ok((if head.Some? then [head.value] else []) + tail.value)
  }

  /** When every check decides, there is one outcome per value, in order. */
  lemma {:induction false} CheckEachDecided(values: seq<Json>, check: Json -> Result<Option<bool>, Failure>)
    requires forall k :: 0 <= k < |values| ==> check(values[k]).Ok? && check(values[k]).value.Some?
    ensures CheckEach(values, check).Ok?
    ensures var r := CheckEach(values, check).value;
            |r| == |values| && forall k :: 0 <= k < |values| ==> r[k] == check(values[k]).value.value
    decreases |values|
  {
    if values != [] {
      assert forall k :: 1 <= k < |values| ==> values[1..][k - 1] == values[k];
      CheckEachDecided(values[1..], check);
    }
  }

  /** When no check decides, nothing is recorded. */
  lemma {:induction false} CheckEachUndecided(values: seq<Json>, check: Json -> Result<Option<bool>, Failure>)
    requires forall k :: 0 <= k < |values| ==> check(values[k]) == Ok(None)
    ensures CheckEach(values, check) == Ok([])
    decreases |values|
  {
    if values != [] {
      assert forall k :: 1 <= k < |values| ==> values[1..][k - 1] == values[k];
      CheckEachUndecided(values[1..], check);
    }
  }

  /** Every recorded outcome is the decided check of one of the values. */
  lemma {:induction false} CheckEachRecorded(values: seq<Json>, check: Json -> Result<Option<bool>, Failure>, n: nat)
    requires CheckEach(values, check).Ok? && n < |CheckEach(values, check).value|
    ensures exists k :: 0 <= k < |values| && check(values[k]) == Ok(Some(CheckEach(values, check).value[n]))
    decreases |values|
  {
    var r := CheckEach(values, check).value;
    var head := check(values[0]).value;
    var tail := CheckEach(values[1..], check).value;
    assert r == (if head.Some? then [head.value] else []) + tail;
    if head.Some? && n == 0 {
      assert check(values[0]) == Ok(Some(r[n]));
    } else {
      var m := if head.Some? then n - 1 else n;
      assert r[n] == tail[m];
      CheckEachRecorded(values[1..], check, m);
      var k :| 0 <= k < |values[1..]| && check(values[1..][k]) == Ok(Some(tail[m]));
      assert check(values[k + 1]) == Ok(Some(r[n]));
    }
  }

  /** Applies a per-value check that cannot raise: Some(b) records b, None records nothing. */
  function RecordEach(values: seq<Json>, check: Json -> Option<bool>): (r: seq<bool>)
    ensures |r| <= |values|
    ensures (forall k :: 0 <= k < |values| ==> check(values[k]).Some?) ==>
              |r| == |values| && forall k :: 0 <= k < |values| ==> r[k] == check(values[k]).value
    ensures (forall k :: 0 <= k < |values| ==> check(values[k]).None?) ==> r == []
    decreases |values|
  {
    if values == [] then []
    else
      assert forall k :: 1 <= k < |values| ==> values[1..][k - 1] == values[k];
      var tail := RecordEach(values[1..], check);
      match check(values[0])
      case Some(b) => [b] + tail
      case None => tail
  }

  // ---------------------------------------------------------------------------
  // domain

  /** A string holds a float marker: '.', or 'e' after lower-casing. */
  predicate HasFloatMarker(s: string) {
    '.' in s || 'e' in s || 'E' in s
  }

  /** Coercion of a string in the domain check: float() if it has a float marker, int() otherwise. */
  function CoerceNumeric(s: string): (r: Option<Json>)
    ensures r.Some? ==> IsNumber(r.value)
    ensures HasFloatMarker(s) ==> (r.Some? <==> ParseFloat(s).Some?)
    ensures HasFloatMarker(s) && r.Some? ==> r.value == Num(ParseFloat(s).value)
    ensures !HasFloatMarker(s) ==> (r.Some? <==> ParseInt(s).Some?)
    ensures !HasFloatMarker(s) && r.Some? ==> r.value == Int(ParseInt(s).value)
  {
    if HasFloatMarker(s) then
      match ParseFloat(s)
      case Some(x) => Some(Num(x))
      case None => None
    else
      match ParseInt(s)
      case Some(i) => Some(Int(i))
      case None => None
  }

  /** A comparison outcome, TypeError where Python cannot order the operands. */
  function Decided(c: Option<bool>): Result<Option<bool>, Failure> {
    match c
    case Some(b) => Ok(Some(b))
    case None => Err(Raised("TypeError"))
  }

  /** The bound test on one value: the chained comparison, one side, or nothing. */
  function WithinBounds(x: Json, lo: Json, hi: Json): (r: Result<Option<bool>, Failure>)
    ensures lo.Null? && hi.Null? ==> r == Ok(None)
    ensures !lo.Null? || !hi.Null? ==> r.Err? || r.value.Some?
    ensures IsNumber(x) && IsNumber(lo) && IsNumber(hi) ==>
              r == Ok(Some(NumberValue(lo) <= NumberValue(x) <= NumberValue(hi)))
    ensures IsNumber(x) && IsNumber(lo) && hi.Null? ==> r == Ok(Some(NumberValue(x) >= NumberValue(lo)))
    ensures IsNumber(x) && lo.Null? && IsNumber(hi) ==> r == Ok(Some(NumberValue(x) <= NumberValue(hi)))
    ensures x.Str? && (IsNumber(lo) || (lo.Null? && IsNumber(hi))) ==> r.Err?
  {
    if !lo.Null? && !hi.Null? then
      match LessEq(lo, x)
      case None => Err(Raised("TypeError"))
      case Some(false) => Ok(Some(false))
      case Some(true) => Decided(LessEq(x, hi))
    else if !lo.Null? then Decided(GreaterEq(x, lo))
    else if !hi.Null? then Decided(LessEq(x, hi))
    else Ok(None)
  }

  /** One value of a domain check. */
  function DomainValue(v: Json, lo: Json, hi: Json, coerce: bool): (r: Result<Option<bool>, Failure>)
    ensures v.Null? ==> r == Ok(Some(false))
    ensures coerce && v.Str? && CoerceNumeric(v.s).None? ==> r == Ok(Some(false))
    ensures lo.Null? && hi.Null? && !v.Null? && !(coerce && v.Str? && CoerceNumeric(v.s).None?) ==> r == Ok(None)
    ensures IsNumber(v) && IsNumber(lo) && IsNumber(hi) ==>
              r == Ok(Some(NumberValue(lo) <= NumberValue(v) <= NumberValue(hi)))
    ensures coerce && v.Str? && CoerceNumeric(v.s).Some? && IsNumber(lo) && IsNumber(hi) ==>
              var x := NumberValue(CoerceNumeric(v.s).value);
              r == Ok(Some(NumberValue(lo) <= x <= NumberValue(hi)))
    ensures v.Str? && !coerce && (IsNumber(lo) || (lo.Null? && IsNumber(hi))) ==> r.Err?
  {
    if v.Null? then Ok(Some(false))
    else if coerce && v.Str? then
      match CoerceNumeric(v.s)
      case None => Ok(Some(false))
      case Some(x) => WithinBounds(x, lo, hi)
    else WithinBounds(v, lo, hi)
  }

  /** The per-value check of a domain rule. */
  function DomainCheck(lo: Json, hi: Json, coerce: bool): Json -> Result<Option<bool>, Failure> {
    v => DomainValue(v, lo, hi, coerce)
  }

  function CheckDomain(sample: Json, feature: string, specs: Json): (r: Result<Validation, Failure>)
    ensures r.Ok? ==> r.value.kind == "domain" && r.value.feature == feature
    ensures r.Ok? ==> r.value == Finish("domain", feature, r.value.checks)
    ensures r.Ok? ==> (r.value.result <==> forall k :: 0 <= k < |r.value.checks| ==> r.value.checks[k])
    ensures !specs.Obj? && GetValues(sample, feature).Ok? ==> r.Err?
  {
    var values :- GetValues(sample, feature);
    if !specs.Obj? then Err(Raised("AttributeError"))
    else
      var lo := Lookup(specs.fields, "min").GetOr(Null);
      var hi := Lookup(specs.fields, "max").GetOr(Null);
      var coerce := Truthy(Lookup(specs.fields, "coerce_numeric_strings").GetOr(Bool(false)));
      var checks :- CheckEach(values, DomainCheck(lo, hi, coerce));
      Ok(Finish("domain", feature, checks))
  }

  // ---------------------------------------------------------------------------
  // strlen

  /** One value of a strlen check: len(str(v)) against the target by EXACT, LOWER or UPPER. */
  function StrlenValue(v: Json, lenType: Json, target: Json): (r: Result<Option<bool>, Failure>)
    ensures lenType == Str("EXACT") && IsNumber(target) ==>
              r == Ok(Some(|PyStr(v)| as real == NumberValue(target)))
    ensures lenType == Str("LOWER") && IsNumber(target) ==>
              r == Ok(Some((|PyStr(v)| as real) < NumberValue(target)))
    ensures lenType == Str("UPPER") && IsNumber(target) ==>
              r == Ok(Some((|PyStr(v)| as real) > NumberValue(target)))
    ensures lenType !in {Str("EXACT"), Str("LOWER"), Str("UPPER")} ==> r == Ok(None)
    ensures lenType == Str("EXACT") ==> r.Ok?
  {
    var n := Int(|PyStr(v)|);
    if lenType == Str("EXACT") then Ok(Some(PyEq(n, target)))
    else if lenType == Str("LOWER") then Decided(Less(n, target))
    else if lenType == Str("UPPER") then Decided(Greater(n, target))
    else Ok(None)
  }

  /** The per-value check of a strlen rule. */
  function StrlenCheck(lenType: Json, target: Json): Json -> Result<Option<bool>, Failure> {
    v => StrlenValue(v, lenType, target)
  }

  function CheckStrlen(sample: Json, feature: string, specs: Json): (r: Result<Validation, Failure>)
    ensures r.Ok? ==> r.value.kind == "strlen" && r.value.feature == feature
    ensures r.Ok? ==> (r.value.result <==> forall k :: 0 <= k < |r.value.checks| ==> r.value.checks[k])
    ensures r.Ok? ==> Subscript(specs, "lenType").Ok? && Subscript(specs, "len").Ok?
  {
    var values :- GetValues(sample, feature);
    var lenType :- Subscript(specs, "lenType");
    var target :- Subscript(specs, "len");
    var checks :- CheckEach(values, StrlenCheck(lenType, target));
    Ok(Finish("strlen", feature, checks))
  }

  // ---------------------------------------------------------------------------
  // datatype

  /** One value of a datatype check; bool counts as int, int as float. */
  function DataTypeValue(v: Json, dataType: Json, coerce: bool): (r: Option<bool>)
    ensures dataType == Str("STRING") ==> r == Some(v.Str?)
    ensures dataType == Str("BOOLEAN") ==> r == Some(v.Bool?)
    ensures dataType == Str("INTEGER") ==>
              r == Some(v.Bool? || v.Int? || (coerce && v.Str? && ParseInt(v.s).Some?))
    ensures dataType == Str("FLOAT") ==>
              r == Some(IsNumber(v) || (coerce && v.Str? && ParseFloat(v.s).Some?))
    ensures dataType !in {Str("STRING"), Str("INTEGER"), Str("FLOAT"), Str("BOOLEAN")} ==> r == None
  {
    if dataType == Str("STRING") then Some(v.Str?)
    else if dataType == Str("INTEGER") then
      Some(IsPyInt(v) || (coerce && v.Str? && ParseInt(v.s).Some?))
    else if dataType == Str("FLOAT") then
      Some(IsNumber(v) || (coerce && v.Str? && ParseFloat(v.s).Some?))
    else if dataType == Str("BOOLEAN") then Some(v.Bool?)
    else None
  }

  /** Whatever passes INTEGER passes FLOAT too. */
  lemma IntegerImpliesFloat(v: Json, coerce: bool)
    requires DataTypeValue(v, Str("INTEGER"), coerce) == Some(true)
    ensures DataTypeValue(v, Str("FLOAT"), coerce) == Some(true)
  {
  }

  function CheckDataType(sample: Json, feature: string, specs: Json): (r: Result<Validation, Failure>)
    ensures r.Ok? ==> r.value.kind == "datatype" && r.value.feature == feature
    ensures r.Ok? ==> (r.value.result <==> forall k :: 0 <= k < |r.value.checks| ==> r.value.checks[k])
    ensures GetValues(sample, feature).Ok? ==> (r.Ok? <==> Subscript(specs, "type").Ok?)
  {
    var values :- GetValues(sample, feature);
    var dataType :- Subscript(specs, "type");
    var coerce := Truthy(Lookup(specs.fields, "coerce_numeric_strings").GetOr(Bool(false)));
    Ok(Finish("datatype", feature, RecordEach(values, v => DataTypeValue(v, dataType, coerce))))
  }

  // ---------------------------------------------------------------------------
  // categorical

  /** One value of a categorical check: Python `value in allowed`. */
  function CategoricalValue(v: Json, allowed: Json): (r: Result<Option<bool>, Failure>)
    ensures allowed.Arr? ==> r == Ok(Some(AnyEq(v, allowed.items)))
    ensures r.Ok? <==> PyIn(v, allowed).Some?
    ensures r.Ok? ==> r.value == PyIn(v, allowed)
  {
    Decided(PyIn(v, allowed))
  }

  /** A well-formed value listed among the allowed values passes. */
  lemma ListedValuePasses(v: Json, allowed: seq<Json>)
    requires v in allowed && WellFormed(v)
    ensures CategoricalValue(v, Arr(allowed)) == Ok(Some(true))
  {
    PyEqReflexive(v);
  }

  /** The per-value check of a categorical rule. */
  function CategoricalCheck(allowed: Json): Json -> Result<Option<bool>, Failure> {
    v => CategoricalValue(v, allowed)
  }

  function CheckCategorical(sample: Json, feature: string, specs: Json): (r: Result<Validation, Failure>)
    ensures r.Ok? ==> r.value.kind == "categorical" && r.value.feature == feature
    ensures r.Ok? ==> (r.value.result <==> forall k :: 0 <= k < |r.value.checks| ==> r.value.checks[k])
  {
    var values :- GetValues(sample, feature);
    var allowed :- Subscript(specs, "values");
    var checks :- CheckEach(values, CategoricalCheck(allowed));
    Ok(Finish("categorical", feature, checks))
  }

  // ---------------------------------------------------------------------------
  // exists

  /** split_on_last_dot: the text before and after the last '.', or (s, "") without one. */
  function SplitOnLastDot(s: string): (r: (string, string))
    ensures '.' !in r.1
    ensures '.' in s ==> r.0 + "." + r.1 == s
    ensures '.' !in s ==> r == (s, "")
  {
    var i := LastIndexOf(s, '.');
    if i < 0 then (s, "")
    else
      assert s == s[..i] + "." + s[i + 1..];
      (s[..i], s[i + 1..])
  }

  /** One value of an exists check: key membership, where a TypeError counts as absence. */
  function ExistsValue(v: Json, key: string, shouldExist: bool): (r: bool)
    ensures r <==> (PyIn(Str(key), v) == Some(true)) == shouldExist
    ensures v.Obj? ==> (r <==> (key in Keys(v.fields)) == shouldExist)
    ensures v.Null? || IsNumber(v) ==> r == !shouldExist
  {
    var present := PyIn(Str(key), v) == Some(true);
    if shouldExist then present else !present
  }

  function CheckExists(sample: Json, path: string, specs: Json): (r: Result<Validation, Failure>)
    ensures r.Ok? ==> r.value.kind == "missing"
    ensures r.Ok? ==> r.value.feature == SplitOnLastDot(path).0 + "." + SplitOnLastDot(path).1
    ensures r.Ok? ==> (r.value.result <==> forall k :: 0 <= k < |r.value.checks| ==> r.value.checks[k])
    ensures var values := GetValues(sample, SplitOnLastDot(path).0);
            values.Ok? && Subscript(specs, "exists").Ok? ==> r.Ok? && |r.value.checks| == |values.value|
  {
    var (container, key) := SplitOnLastDot(path);
    var values :- GetValues(sample, container);
    var shouldExist :- Subscript(specs, "exists");
    var checks := RecordEach(values, ExistsCheck(key, Truthy(shouldExist)));
    Ok(Finish("missing", container + "." + key, checks))
  }

  /** The per-value check of an exists rule. */
  function ExistsCheck(key: string, shouldExist: bool): Json -> Option<bool> {
    v => Some(ExistsValue(v, key, shouldExist))
  }

  /** The checks of an exists rule are its per-value check over the values of the path's container. */
  lemma CheckExistsChecks(sample: Json, path: string, specs: Json, container: string, key: string, shouldExist: bool)
    requires SplitOnLastDot(path) == (container, key)
    requires GetValues(sample, container).Ok? && Subscript(specs, "exists").Ok?
    requires Truthy(Subscript(specs, "exists").value) == shouldExist
    ensures CheckExists(sample, path, specs)
            == Ok(Finish("missing", container + "." + key, RecordEach(GetValues(sample, container).value, ExistsCheck(key, shouldExist))))
  {
  }

  /** The reported feature of an exists check is the path itself, or the path and a '.' when it has none. */
  lemma ExistsFeatureLabel(path: string)
    ensures '.' in path ==> SplitOnLastDot(path).0 + "." + SplitOnLastDot(path).1 == path
    ensures '.' !in path ==> SplitOnLastDot(path).0 + "." + SplitOnLastDot(path).1 == path + "."
  {
  }

  // ---------------------------------------------------------------------------
  // regex

  /** One value of a regex check: a full match of str(v); TypeError for a non-string pattern. */
  function RegexValue(v: Json, pattern: Json, fullmatch: FullMatch): (r: Result<Option<bool>, Failure>)
    ensures pattern.Str? && fullmatch(pattern.s, PyStr(v)).Some? ==>
              r == Ok(Some(fullmatch(pattern.s, PyStr(v)).value))
    ensures !pattern.Str? || fullmatch(pattern.s, PyStr(v)).None? ==> r.Err?
  {
    if !pattern.Str? then Err(Raised("TypeError"))
    else match fullmatch(pattern.s, PyStr(v))
      case Some(b) => Ok(Some(b))
      case None => Err(Raised("re.error"))
  }

  /** The per-value check of a regex rule. */
  function RegexCheck(pattern: Json, fullmatch: FullMatch): Json -> Result<Option<bool>, Failure> {
    v => RegexValue(v, pattern, fullmatch)
  }

  function CheckRegex(sample: Json, feature: string, specs: Json, fullmatch: FullMatch): (r: Result<Validation, Failure>)
    ensures r.Ok? ==> r.value.kind == "regex" && r.value.feature == feature
    ensures r.Ok? ==> (r.value.result <==> forall k :: 0 <= k < |r.value.checks| ==> r.value.checks[k])
  {
    var values :- GetValues(sample, feature);
    var pattern :- Subscript(specs, "regex");
    var checks :- CheckEach(values, RegexCheck(pattern, fullmatch));
    Ok(Finish("regex", feature, checks))
  }

  // ---------------------------------------------------------------------------
  // validate

  /** The kind a rule name selects, if any. */
  function KindNamed(name: Json): (k: Option<Kind>)
    ensures k.Some? ==> name.Str?
    ensures name.Str? && name.s in {"domain", "strlen", "datatype", "categorical", "exists", "regex"} ==> k.Some?
  {
    if name == Str("domain") then Some(Domain)
    else if name == Str("strlen") then Some(Strlen)
    else if name == Str("datatype") then Some(DataType)
    else if name == Str("categorical") then Some(Categorical)
    else if name == Str("exists") then Some(Exists)
    else if name == Str("regex") then Some(Regex)
    else None
  }

  /** The "type" a result of the given kind carries: an exists check reports "missing". */
  function Label(k: Kind): (s: string)
    ensures k.Exists? <==> s == "missing"
  {
    match k
    case Domain => "domain"
    case Strlen => "strlen"
    case DataType => "datatype"
    case Categorical => "categorical"
    case Exists => "missing"
    case Regex => "regex"
  }

  /** A rule the evaluator can read: a mapping with "name", "feature" and "specs". */
  predicate Readable(rule: Json) {
    rule.Obj? && "name" in Keys(rule.fields) && "feature" in Keys(rule.fields) && "specs" in Keys(rule.fields)
  }

  /** The kind of a readable rule, None for a name the evaluator skips. */
  function RuleKind(rule: Json): Option<Kind>
    requires Readable(rule)
  {
    KindNamed(Lookup(rule.fields, "name").value)
  }

  /** The kinds of the rules that produce a result, in rule order. */
  function KnownKinds(rules: seq<Json>): (ks: seq<Kind>)
    requires forall k :: 0 <= k < |rules| ==> Readable(rules[k])
    ensures |ks| <= |rules|
  {
    if rules == [] then []
    else
      var rest := KnownKinds(rules[1..]);
      match RuleKind(rules[0])
      case Some(k) => [k] + rest
      case None => rest
  }

  /** Runs the check of one kind; a feature path that is not a string raises. */
  function Apply(kind: Kind, sample: Json, feature: Json, specs: Json, fullmatch: FullMatch): (r: Result<Validation, Failure>)
    ensures r.Ok? ==> r.value.kind == Label(kind)
    ensures r.Ok? ==> (r.value.result <==> forall k :: 0 <= k < |r.value.checks| ==> r.value.checks[k])
    ensures !feature.Str? ==> r.Err?
  {
    if !feature.Str? then Err(Raised("TypeError"))
    else match kind
      case Domain => CheckDomain(sample, feature.s, specs)
      case Strlen => CheckStrlen(sample, feature.s, specs)
      case DataType => CheckDataType(sample, feature.s, specs)
      case Categorical => CheckCategorical(sample, feature.s, specs)
      case Exists => CheckExists(sample, feature.s, specs)
      case Regex => CheckRegex(sample, feature.s, specs, fullmatch)
  }

  /** The result list one rule contributes: empty for an unknown name, else its check's result. */
  function RuleResults(rule: Json, sample: Json, fullmatch: FullMatch): (r: Result<seq<Validation>, Failure>)
    ensures r.Ok? ==> Readable(rule)
    ensures r.Ok? ==> |r.value| == (if RuleKind(rule).Some? then 1 else 0)
    ensures r.Ok? && RuleKind(rule).Some? ==> r.value[0].kind == Label(RuleKind(rule).value)
    ensures r.Ok? ==> forall n :: 0 <= n < |r.value| ==> Conjoined(r.value[n])
  {
    var name :- Subscript(rule, "name");
    var feature :- Subscript(rule, "feature");
    var specs :- Subscript(rule, "specs");
    ReadableRule(rule);
    match KindNamed(name)
    case Some(kind) =>
      var v :- Apply(kind, sample, feature, specs, fullmatch);
      assert Conjoined(v);
      Ok([v])
    case None => Ok([])
  }

  /** A rule whose three fields can be read is readable, and its kind is that of its name. */
  lemma ReadableRule(rule: Json)
    requires Subscript(rule, "name").Ok? && Subscript(rule, "feature").Ok? && Subscript(rule, "specs").Ok?
    ensures Readable(rule) && RuleKind(rule) == KindNamed(Subscript(rule, "name").value)
  {
  }

  /** The "type" fields of a result list, in order. */
  function KindsOf(vs: seq<Validation>): (ks: seq<string>)
    ensures |ks| == |vs|
  {
    if vs == [] then [] else [vs[0].kind] + KindsOf(vs[1..])
  }

  /** The labels the given kinds report under, in order. */
  function Labels(ks: seq<Kind>): (ls: seq<string>)
    ensures |ls| == |ks|
  {
    if ks == [] then [] else [Label(ks[0])] + Labels(ks[1..])
  }

  lemma {:induction false} KindsOfAppend(a: seq<Validation>, b: seq<Validation>)
    ensures KindsOf(a + b) == KindsOf(a) + KindsOf(b)
  {
    if a != [] {
      assert (a + b)[1..] == a[1..] + b;
      KindsOfAppend(a[1..], b);
    } else {
      assert a + b == b;
    }
  }

  /** The evaluation of one rule against a sample, as a function value. */
  function RuleStep(sample: Json, fullmatch: FullMatch): Json -> Result<seq<Validation>, Failure> {
    rule => RuleResults(rule, sample, fullmatch)
  }

  /** The result lists of the rules in turn, concatenated; the first failure ends the evaluation. */
  function Gather(rules: seq<Json>, step: Json -> Result<seq<Validation>, Failure>): Result<seq<Validation>, Failure>
    decreases |rules|
  {
    if rules == [] then Ok([])
    else
      var head :- step(rules[0]);
      var tail :- Gather(rules[1..], step);
      Ok(head + tail)
  }

  /** The results of the rules in order; rules with an unknown name are skipped. */
  function ValidateRules(rules: seq<Json>, sample: Json, fullmatch: FullMatch): (r: Result<seq<Validation>, Failure>)
    ensures r.Err? <==> exists k :: 0 <= k < |rules| && RuleResults(rules[k], sample, fullmatch).Err?
    ensures r.Ok? ==> KindsOf(r.value) == Labels(KnownKinds(rules))
  {
    var step := RuleStep(sample, fullmatch);
    RuleStepSound(sample, fullmatch);
    GatherFails(rules, step);
    if Gather(rules, step).Ok? then
      GatherReadable(rules, step);
      GatherKinds(rules, step);
      Gather(rules, step)
    else
      Gather(rules, step)
  }

  /** The rules fail to evaluate exactly when one of them raises. */
  lemma {:induction false} GatherFails(rules: seq<Json>, step: Json -> Result<seq<Validation>, Failure>)
    ensures Gather(rules, step).Err? <==> exists k :: 0 <= k < |rules| && step(rules[k]).Err?
    decreases |rules|
  {
    if rules != [] {
      GatherFails(rules[1..], step);
      assert forall k :: 1 <= k < |rules| ==> rules[1..][k - 1] == rules[k];
      if exists k :: 1 <= k < |rules| && step(rules[k]).Err? {
        var k :| 1 <= k < |rules| && step(rules[k]).Err?;
        assert step(rules[1..][k - 1]).Err?;
      }
    }
  }

  /** A rule that evaluates is readable, and yields one result exactly when its kind is known. */
  ghost predicate StepShaped(step: Json -> Result<seq<Validation>, Failure>) {
    forall rule :: step(rule).Ok? ==>
      && Readable(rule)
      && |step(rule).value| == (if RuleKind(rule).Some? then 1 else 0)
      && (RuleKind(rule).Some? ==> step(rule).value[0].kind == Label(RuleKind(rule).value))
  }

  /** Every result a rule yields is the conjunction of its checks. */
  ghost predicate StepConjoined(step: Json -> Result<seq<Validation>, Failure>) {
    forall rule, n :: step(rule).Ok? && 0 <= n < |step(rule).value| ==> Conjoined(step(rule).value[n])
  }

  lemma RuleStepSound(sample: Json, fullmatch: FullMatch)
    ensures StepShaped(RuleStep(sample, fullmatch))
    ensures StepConjoined(RuleStep(sample, fullmatch))
  {
    forall rule | RuleStep(sample, fullmatch)(rule).Ok?
      ensures Readable(rule) && |RuleResults(rule, sample, fullmatch).value| == (if RuleKind(rule).Some? then 1 else 0)
    {
      var r := RuleResults(rule, sample, fullmatch);
    }
  }

  /** Every rule of a list that evaluates is readable. */
  lemma {:induction false} GatherReadable(rules: seq<Json>, step: Json -> Result<seq<Validation>, Failure>)
    requires StepShaped(step) && Gather(rules, step).Ok?
    ensures forall k :: 0 <= k < |rules| ==> Readable(rules[k])
    decreases |rules|
  {
    if rules != [] {
      GatherReadable(rules[1..], step);
      assert forall k :: 1 <= k < |rules| ==> rules[1..][k - 1] == rules[k];
    }
  }

  /** The results come in the order of the rules whose kind is known, one each. */
  lemma {:induction false} GatherKinds(rules: seq<Json>, step: Json -> Result<seq<Validation>, Failure>)
    requires StepShaped(step) && Gather(rules, step).Ok?
    requires forall k :: 0 <= k < |rules| ==> Readable(rules[k])
    ensures KindsOf(Gather(rules, step).value) == Labels(KnownKinds(rules))
    decreases |rules|
  {
    if rules != [] {
      var head := step(rules[0]).value;
      var tail := Gather(rules[1..], step).value;
      assert forall k :: 1 <= k < |rules[1..]| ==> rules[1..][k] == rules[k + 1];
      GatherKinds(rules[1..], step);
      KindsOfAppend(head, tail);
      match RuleKind(rules[0])
      case Some(k) =>
        assert KindsOf(head) == [Label(k)];
      case None =>
        assert head == [];
    }
  }

  /** Each result's outcome is the conjunction of its recorded checks. */
  lemma {:induction false} GatherConjoined(rules: seq<Json>, step: Json -> Result<seq<Validation>, Failure>)
    requires StepConjoined(step) && Gather(rules, step).Ok?
    ensures var vs := Gather(rules, step).value;
            forall n :: 0 <= n < |vs| ==> Conjoined(vs[n])
    decreases |rules|
  {
    if rules != [] {
      GatherConjoined(rules[1..], step);
      var head := step(rules[0]).value;
      var tail := Gather(rules[1..], step).value;
      forall n | 0 <= n < |head + tail| ensures Conjoined((head + tail)[n]) {
        if n >= |head| {
          assert (head + tail)[n] == tail[n - |head|];
        }
      }
    }
  }

  /** A rule list without a known rule name yields no results at all. */
  lemma {:induction false} GatherSkipsUnknown(rules: seq<Json>, step: Json -> Result<seq<Validation>, Failure>)
    requires StepShaped(step)
    requires forall k :: 0 <= k < |rules| ==> Readable(rules[k]) && RuleKind(rules[k]).None? && step(rules[k]).Ok?
    ensures Gather(rules, step) == Ok([])
    decreases |rules|
  {
    if rules != [] {
      assert forall k :: 1 <= k < |rules| ==> rules[1..][k - 1] == rules[k];
      GatherSkipsUnknown(rules[1..], step);
      assert step(rules[0]).value == [];
      assert [] + Gather(rules[1..], step).value == [];
    }
  }

  /** A readable rule of an unknown kind contributes no result. */
  lemma UnknownRuleSkipped(rule: Json, sample: Json, fullmatch: FullMatch)
    requires Readable(rule) && RuleKind(rule).None?
    ensures RuleResults(rule, sample, fullmatch) == Ok([])
  {
  }

  /** A rule list without a known rule name yields no results at all. */
  lemma UnknownRulesSkipped(rules: seq<Json>, sample: Json, fullmatch: FullMatch)
    requires forall k :: 0 <= k < |rules| ==> Readable(rules[k]) && RuleKind(rules[k]).None?
    ensures ValidateRules(rules, sample, fullmatch) == Ok([])
  {
    forall k | 0 <= k < |rules| ensures RuleStep(sample, fullmatch)(rules[k]).Ok? {
      UnknownRuleSkipped(rules[k], sample, fullmatch);
    }
    RuleStepSound(sample, fullmatch);
    GatherSkipsUnknown(rules, RuleStep(sample, fullmatch));
  }

  /** StandardValidator(...): the configuration must be a mapping holding a "rules" list. */
  function NewValidator(validatorId: string, config: Json): (r: Result<StandardValidator, Failure>)
    ensures r.Ok? <==> config.Obj? && Lookup(config.fields, "rules").Some? && Lookup(config.fields, "rules").value.Arr?
    ensures r.Ok? ==> r.value.validatorId == validatorId && Arr(r.value.rules) == Lookup(config.fields, "rules").value
  {
    if !config.Obj? then Err(Raised("ValueError"))
    else match Lookup(config.fields, "rules")
      case Some(Arr(rules)) => Ok(StandardValidator(validatorId, rules))
      case _ => Err(Raised("ValueError"))
  }

  /** validate(sample): the identifier, the sample and one result per known rule. */
  function Validate(validator: StandardValidator, sample: Json, fullmatch: FullMatch): (r: Result<Report, Failure>)
    ensures r.Ok? ==> r.value.validatorId == validator.validatorId && r.value.sample == sample
    ensures r.Ok? ==> forall k :: 0 <= k < |validator.rules| ==> Readable(validator.rules[k])
    ensures r.Ok? ==> KindsOf(r.value.validations) == Labels(KnownKinds(validator.rules))
    ensures r.Ok? ==> forall n :: 0 <= n < |r.value.validations| ==> Conjoined(r.value.validations[n])
  {
    var validations :- ValidateRules(validator.rules, sample, fullmatch);
    RuleStepSound(sample, fullmatch);
    GatherReadable(validator.rules, RuleStep(sample, fullmatch));
    GatherKinds(validator.rules, RuleStep(sample, fullmatch));
    GatherConjoined(validator.rules, RuleStep(sample, fullmatch));
    Ok(Report(validator.validatorId, sample, validations))
  }

  /** Every result of the list holds. */
  function AllResults(vs: seq<Validation>): (b: bool)
    ensures b <==> forall n :: 0 <= n < |vs| ==> vs[n].result
  {
    if vs == [] then true else vs[0].result && AllResults(vs[1..])
  }

  /**
   * transform: "valid" when every result holds, "invalid" otherwise, and
   * "failure" when the rules or the content do not decode or evaluation
   * raises. config and input are the decoded rules text and flowfile
   * content, None when decoding fails.
   */
  function Transform(validatorId: string, config: Option<Json>, input: Option<Json>, fullmatch: FullMatch): (r: Route)
    ensures r.Valid? ==> forall n :: 0 <= n < |r.report.validations| ==> r.report.validations[n].result
    ensures r.Invalid? ==> exists n :: 0 <= n < |r.report.validations| && !r.report.validations[n].result
    ensures !r.Failed? <==>
              && config.Some? && input.Some? && NewValidator(validatorId, config.value).Ok?
              && Validate(NewValidator(validatorId, config.value).value, input.value, fullmatch).Ok?
    ensures !r.Failed? ==> Ok(r.report) == Validate(NewValidator(validatorId, config.value).value, input.value, fullmatch)
  {
    if config.None? then Failed
    else match NewValidator(validatorId, config.value)
      case Err(_) => Failed
      case Ok(validator) =>
        if input.None? then Failed
        else match Validate(validator, input.value, fullmatch)
          case Err(_) => Failed
          case Ok(report) =>
            if AllResults(report.validations) then Valid(report)
            else Invalid(report)
  }

  // ---------------------------------------------------------------------------
  // Properties of the checks

  /** The check list of a domain rule is its per-value check over the resolved values. */
  lemma CheckDomainChecks(sample: Json, feature: string, specs: Json, lo: Json, hi: Json, coerce: bool)
    requires GetValues(sample, feature).Ok? && specs.Obj?
    requires Lookup(specs.fields, "min").GetOr(Null) == lo && Lookup(specs.fields, "max").GetOr(Null) == hi
    requires Truthy(Lookup(specs.fields, "coerce_numeric_strings").GetOr(Bool(false))) == coerce
    ensures var checks := CheckEach(GetValues(sample, feature).value, DomainCheck(lo, hi, coerce));
            && (CheckDomain(sample, feature, specs).Ok? <==> checks.Ok?)
            && (checks.Ok? ==> CheckDomain(sample, feature, specs).value.checks == checks.value)
  {
  }

  /** A number against numeric bounds passes exactly within the closed range. */
  lemma NumberInBounds(v: Json, lo: Json, hi: Json, coerce: bool)
    requires IsNumber(v) && IsNumber(lo) && IsNumber(hi)
    ensures DomainCheck(lo, hi, coerce)(v) == Ok(Some(NumberValue(lo) <= NumberValue(v) <= NumberValue(hi)))
  {
  }

  /**
   * A domain rule with neither bound records only failures: a check for each
   * null or unparseable value, and none at all when every value is a number.
   */
  lemma DomainWithoutBounds(sample: Json, feature: string, specs: Json)
    requires GetValues(sample, feature).Ok? && specs.Obj?
    requires Lookup(specs.fields, "min").GetOr(Null) == Null && Lookup(specs.fields, "max").GetOr(Null) == Null
    ensures CheckDomain(sample, feature, specs).Ok?
    ensures var v := CheckDomain(sample, feature, specs).value;
            forall k :: 0 <= k < |v.checks| ==> !v.checks[k]
    ensures var values := GetValues(sample, feature).value;
            (forall k :: 0 <= k < |values| ==> IsNumber(values[k])) ==>
              CheckDomain(sample, feature, specs).value.checks == []
  {
    var values := GetValues(sample, feature).value;
    var coerce := Truthy(Lookup(specs.fields, "coerce_numeric_strings").GetOr(Bool(false)));
    UnboundedChecks(values, coerce);
    CheckDomainChecks(sample, feature, specs, Null, Null, coerce);
  }

  /** Without bounds, the per-value checks record only failures, and nothing for numbers. */
  lemma UnboundedChecks(values: seq<Json>, coerce: bool)
    ensures CheckEach(values, DomainCheck(Null, Null, coerce)).Ok?
    ensures var r := CheckEach(values, DomainCheck(Null, Null, coerce)).value;
            && (forall n :: 0 <= n < |r| ==> !r[n])
            && ((forall k :: 0 <= k < |values| ==> IsNumber(values[k])) ==> r == [])
  {
    var check := DomainCheck(Null, Null, coerce);
    forall k | 0 <= k < |values|
      ensures check(values[k]) == Ok(None) || check(values[k]) == Ok(Some(false))
    {
    }
    var r := CheckEach(values, check);
    forall n | 0 <= n < |r.value|
      ensures !r.value[n]
    {
      CheckEachRecorded(values, check, n);
    }
    if forall k :: 0 <= k < |values| ==> IsNumber(values[k]) {
      CheckEachUndecided(values, check);
    }
  }

  /** Numeric values against numeric bounds: one check per value, true exactly within the closed range. */
  lemma DomainNumericBounds(sample: Json, feature: string, specs: Json, lo: Json, hi: Json)
    requires GetValues(sample, feature).Ok? && specs.Obj?
    requires Lookup(specs.fields, "min") == Some(lo) && Lookup(specs.fields, "max") == Some(hi)
    requires IsNumber(lo) && IsNumber(hi)
    requires var values := GetValues(sample, feature).value;
             forall k :: 0 <= k < |values| ==> IsNumber(values[k])
    ensures CheckDomain(sample, feature, specs).Ok?
    ensures var values := GetValues(sample, feature).value;
            var checks := CheckDomain(sample, feature, specs).value.checks;
            |checks| == |values| && forall k :: 0 <= k < |values| ==> (checks[k] <==> NumberValue(lo) <= NumberValue(values[k]) <= NumberValue(hi))
  {
    var values := GetValues(sample, feature).value;
    var coerce := Truthy(Lookup(specs.fields, "coerce_numeric_strings").GetOr(Bool(false)));
    BoundedChecks(values, lo, hi, coerce);
    CheckDomainChecks(sample, feature, specs, lo, hi, coerce);
  }

  /** Numbers against numeric bounds: one check per value, true exactly within the range. */
  lemma BoundedChecks(values: seq<Json>, lo: Json, hi: Json, coerce: bool)
    requires IsNumber(lo) && IsNumber(hi)
    requires forall k :: 0 <= k < |values| ==> IsNumber(values[k])
    ensures CheckEach(values, DomainCheck(lo, hi, coerce)).Ok?
    ensures var r := CheckEach(values, DomainCheck(lo, hi, coerce)).value;
            |r| == |values| && forall k :: 0 <= k < |values| ==> (r[k] <==> NumberValue(lo) <= NumberValue(values[k]) <= NumberValue(hi))
  {
    var check := DomainCheck(lo, hi, coerce);
    forall k | 0 <= k < |values|
      ensures check(values[k]) == Ok(Some(NumberValue(lo) <= NumberValue(values[k]) <= NumberValue(hi)))
    {
      NumberInBounds(values[k], lo, hi, coerce);
    }
    CheckEachDecided(values, check);
  }

  /** Without coercion, a string value against a numeric lower bound raises, failing the whole evaluation. */
  lemma DomainRejectsUncoercedString(sample: Json, feature: string, specs: Json, k: int)
    requires GetValues(sample, feature).Ok? && specs.Obj?
    requires !Truthy(Lookup(specs.fields, "coerce_numeric_strings").GetOr(Bool(false)))
    requires IsNumber(Lookup(specs.fields, "min").GetOr(Null))
    requires 0 <= k < |GetValues(sample, feature).value| && GetValues(sample, feature).value[k].Str?
    ensures CheckDomain(sample, feature, specs).Err?
  {
    var values := GetValues(sample, feature).value;
    var lo := Lookup(specs.fields, "min").GetOr(Null);
    var hi := Lookup(specs.fields, "max").GetOr(Null);
    assert DomainCheck(lo, hi, false)(values[k]).Err?;
    CheckDomainChecks(sample, feature, specs, lo, hi, false);
  }

  /** With a known type every value is checked; with an unknown one nothing is recorded and the rule holds. */
  lemma DataTypeCoverage(sample: Json, feature: string, specs: Json)
    requires GetValues(sample, feature).Ok? && Subscript(specs, "type").Ok?
    ensures CheckDataType(sample, feature, specs).Ok?
    ensures var t := Subscript(specs, "type").value;
            var v := CheckDataType(sample, feature, specs).value;
            (t in {Str("STRING"), Str("INTEGER"), Str("FLOAT"), Str("BOOLEAN")} ==>
               |v.checks| == |GetValues(sample, feature).value|)
            && (t !in {Str("STRING"), Str("INTEGER"), Str("FLOAT"), Str("BOOLEAN")} ==> v.checks == [] && v.result)
  {
  }

  /** An EXACT strlen rule with an integer length holds iff every value renders to exactly that many characters. */
  lemma StrlenExact(sample: Json, feature: string, specs: Json, n: int)
    requires GetValues(sample, feature).Ok?
    requires Subscript(specs, "lenType") == Ok(Str("EXACT")) && Subscript(specs, "len") == Ok(Int(n))
    ensures CheckStrlen(sample, feature, specs).Ok?
    ensures var values := GetValues(sample, feature).value;
            CheckStrlen(sample, feature, specs).value.result <==>
              forall k :: 0 <= k < |values| ==> |PyStr(values[k])| == n
  {
    var values := GetValues(sample, feature).value;
    var check := StrlenCheck(Str("EXACT"), Int(n));
    forall k | 0 <= k < |values|
      ensures check(values[k]) == Ok(Some(|PyStr(values[k])| == n))
    {
    }
    CheckEachDecided(values, check);
    assert CheckStrlen(sample, feature, specs) == Ok(Finish("strlen", feature, CheckEach(values, check).value));
  }

  /** A categorical rule over a list checks every value: whether it equals one of the allowed values. */
  lemma CategoricalChecksEveryValue(sample: Json, feature: string, specs: Json)
    requires GetValues(sample, feature).Ok? && Subscript(specs, "values").Ok? && Subscript(specs, "values").value.Arr?
    ensures CheckCategorical(sample, feature, specs).Ok?
    ensures var values := GetValues(sample, feature).value;
            var allowed := Subscript(specs, "values").value.items;
            var checks := CheckCategorical(sample, feature, specs).value.checks;
            |checks| == |values| && forall k :: 0 <= k < |values| ==> checks[k] == AnyEq(values[k], allowed)
  {
    var values := GetValues(sample, feature).value;
    var allowed := Subscript(specs, "values").value;
    var check := CategoricalCheck(allowed);
    forall k | 0 <= k < |values|
      ensures check(values[k]) == Ok(Some(AnyEq(values[k], allowed.items)))
    {
    }
    CheckEachDecided(values, check);
    assert CheckCategorical(sample, feature, specs) == Ok(Finish("categorical", feature, CheckEach(values, check).value));
  }

  /** A categorical rule holds when every resolved value appears in the allowed list. */
  lemma CategoricalAcceptsListed(sample: Json, feature: string, specs: Json)
    requires GetValues(sample, feature).Ok? && Subscript(specs, "values").Ok? && Subscript(specs, "values").value.Arr?
    requires var values := GetValues(sample, feature).value;
             forall k :: 0 <= k < |values| ==>
               WellFormed(values[k]) && values[k] in Subscript(specs, "values").value.items
    ensures CheckCategorical(sample, feature, specs).Ok?
    ensures CheckCategorical(sample, feature, specs).value.result
  {
    var values := GetValues(sample, feature).value;
    var allowed := Subscript(specs, "values").value;
    CategoricalChecksEveryValue(sample, feature, specs);
    forall k | 0 <= k < |values|
      ensures AnyEq(values[k], allowed.items)
    {
      ListedValuePasses(values[k], allowed.items);
    }
  }

  /** An exists rule over mappings holds iff the key's presence agrees with "exists" in every one of them. */
  lemma ExistsOverMappings(sample: Json, path: string, specs: Json)
    requires GetValues(sample, SplitOnLastDot(path).0).Ok? && Subscript(specs, "exists").Ok?
    requires var values := GetValues(sample, SplitOnLastDot(path).0).value;
             forall k :: 0 <= k < |values| ==> values[k].Obj?
    ensures CheckExists(sample, path, specs).Ok?
    ensures var values := GetValues(sample, SplitOnLastDot(path).0).value;
            var key := SplitOnLastDot(path).1;
            var wanted := Truthy(Subscript(specs, "exists").value);
            CheckExists(sample, path, specs).value.result <==>
              forall k :: 0 <= k < |values| ==> (key in Keys(values[k].fields)) == wanted
  {
  }
}
