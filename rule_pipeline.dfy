/**
 * How the rules the builder writes read back in the evaluator: the document
 * loads, every rule has a kind the evaluator knows, a domain rule accepts
 * the numbers it was inferred from, and what an exists rule on a top-level
 * field actually checks.
 */
module RulePipeline {
  import opened Wrappers
  import opened JsonValue
  import opened PathResolver
  import opened RuleInference
  import opened FieldProfile
  import opened RuleSynthesis
  import DQA = DqaValidator

  /** A built rule is a mapping the evaluator can read, with a kind it evaluates. */
  lemma BuiltRuleReadable(rule: RuleSpec)
    requires IsBuiltName(rule.name)
    ensures DQA.Readable(RuleJson(rule))
    ensures DQA.RuleKind(RuleJson(rule)).Some?
  {
    var j := RuleJson(rule);
    assert Keys(j.fields) == ["name", "feature", "specs"];
  }

  /** When every rule is readable and known, the evaluator produces one result per rule. */
  lemma {:induction false} AllKindsKnown(rules: seq<Json>)
    requires forall k :: 0 <= k < |rules| ==> DQA.Readable(rules[k]) && DQA.RuleKind(rules[k]).Some?
    ensures |DQA.KnownKinds(rules)| == |rules|
    decreases |rules|
  {
    if rules != [] {
      assert forall k :: 1 <= k < |rules| ==> rules[1..][k - 1] == rules[k];
      AllKindsKnown(rules[1..]);
    }
  }

  /**
   * The document the builder writes is accepted by the evaluator's
   * constructor, and each of its rules yields exactly one result.
   */
  lemma BuiltRulesLoad(validatorId: string, rules: seq<RuleSpec>)
    requires forall k :: 0 <= k < |rules| ==> IsBuiltName(rules[k].name)
    ensures DQA.NewValidator(validatorId, RulesDocument(rules)).Ok?
    ensures var v := DQA.NewValidator(validatorId, RulesDocument(rules)).value;
            && v.rules == RulesJson(rules)
            && (forall k :: 0 <= k < |v.rules| ==> DQA.Readable(v.rules[k]))
            && |DQA.KnownKinds(v.rules)| == |rules|
  {
    var js := RulesJson(rules);
    forall k | 0 <= k < |js|
      ensures DQA.Readable(js[k]) && DQA.RuleKind(js[k]).Some?
    {
      BuiltRuleReadable(rules[k]);
    }
    AllKindsKnown(js);
  }

  /** Every rule inferred from content loads into the evaluator. */
  lemma InferredRulesLoad(validatorId: string, f: Format, content: Content, sampleSize: nat, maxCategories: nat, deriveRegex: bool)
    requires Infer(f, content, sampleSize, maxCategories, deriveRegex).Ok?
    ensures DQA.NewValidator(validatorId, RulesDocument(Infer(f, content, sampleSize, maxCategories, deriveRegex).value)).Ok?
  {
    BuiltRulesLoad(validatorId, Infer(f, content, sampleSize, maxCategories, deriveRegex).value);
  }

  /** A domain check with numeric bounds passes a top-level native number lying between them. */
  lemma DomainCheckOnTopLevelNumber(sample: Json, field: string, lo: real, hi: real)
    requires IsIdentifier(field) && sample.Obj?
    requires Lookup(sample.fields, field).Some?
    requires var v := Lookup(sample.fields, field).value;
             (v.Int? || v.Num?) && lo <= NumberValue(v) <= hi
    ensures DQA.CheckDomain(sample, field, Obj([("min", Num(lo)), ("max", Num(hi))])) == Ok(DQA.Finish("domain", field, [true]))
  {
    var v := Lookup(sample.fields, field).value;
    TopLevelLookup(sample, field);
    assert GetValues(sample, field) == Ok([v]);
    var specs: seq<(string, Json)> := [("min", Num(lo)), ("max", Num(hi))];
    LookupAt(specs, "min", 0);
    LookupAt(specs, "max", 1);
    DQA.DomainNumericBounds(sample, field, Obj(specs), Num(lo), Num(hi));
    var r := DQA.CheckDomain(sample, field, Obj(specs)).value;
    assert [v][0] == v;
    OnlyCheckPassed(r.checks);
  }

  /** A single check that passed is the record [true]. */
  lemma OnlyCheckPassed(checks: seq<bool>)
    requires |checks| == 1 && checks[0]
    ensures checks == [true]
  {
  }

  /**
   * A domain rule the builder wrote for a top-level field accepts every
   * native number that field holds in the sampled records. This rests on
   * numbers being exact reals: Python keeps the range as floats, so an int
   * above 2^53 can fall outside its own rounded range.
   */
  lemma DomainRuleAcceptsObservedNumbers(records: seq<Json>, k: nat, field: string, maxCategories: nat, deriveRegex: bool)
    requires Collect(records, maxCategories, deriveRegex).Ok?
    requires var p := Collect(records, maxCategories, deriveRegex).value;
             field in p.stats && WantsDomain(p.stats[field])
    requires IsIdentifier(field)
    requires k < |records| && records[k].Obj?
    requires Lookup(records[k].fields, field).Some?
    requires Lookup(records[k].fields, field).value.Int? || Lookup(records[k].fields, field).value.Num?
    ensures var st := Collect(records, maxCategories, deriveRegex).value.stats[field];
            DQA.CheckDomain(records[k], field, Obj(DomainSpecs(st))) == Ok(DQA.Finish("domain", field, [true]))
  {
    var st := Collect(records, maxCategories, deriveRegex).value.stats[field];
    var fs := records[k].fields;
    var v := Lookup(fs, field).value;
    var j :| 0 <= j < |fs| && fs[j] == (field, v);
    assert Normalize(fs[j].1) == Some(v);
    RangeEnclosesObservations(records, k, j, maxCategories, deriveRegex);
    assert NumericValue(v) == NumberValue(v);
    DomainCheckOnTopLevelNumber(records[k], field, st.numericMin.value, st.numericMax.value);
  }

  /**
   * The exists rule the builder writes for a top-level field is read as
   * the key "" inside that field's value: a record holding a number (or
   * null) there fails a required-field rule, and one holding a string
   * passes it.
   */
  lemma ExistsRuleOnTopLevelField(sample: Json, field: string)
    requires IsIdentifier(field) && sample.Obj?
    requires Lookup(sample.fields, field).Some?
    ensures var v := Lookup(sample.fields, field).value;
            var r := DQA.CheckExists(sample, field, Obj([("exists", Bool(true))]));
            && r.Ok?
            && r.value.feature == field + "."
            && (IsNumber(v) || v.Null? ==> r.value.checks == [false] && !r.value.result)
            && (v.Str? ==> r.value.checks == [true] && r.value.result)
  {
    var v := Lookup(sample.fields, field).value;
    var specs: seq<(string, Json)> := [("exists", Bool(true))];
    IdentifierHasNoDot(field);
    TopLevelLookup(sample, field);
    LookupAt(specs, "exists", 0);
    DQA.CheckExistsChecks(sample, field, Obj(specs), field, "", true);
    assert field + "." + "" == field + ".";
    if !v.Arr? {
      assert GetValues(sample, field) == Ok([v]);
      ExistsOnSingleValue(sample, field, v);
      EmptyKeyFound(v);
    }
  }

  /** An identifier is a path of one step, with no container before it. */
  lemma IdentifierHasNoDot(field: string)
    requires IsIdentifier(field)
    ensures DQA.SplitOnLastDot(field) == (field, "")
  {
    assert '.' !in field;
  }

  /** An exists rule on a path holding one value records the one check made on it. */
  lemma ExistsOnSingleValue(sample: Json, field: string, v: Json)
    requires DQA.SplitOnLastDot(field) == (field, "")
    requires GetValues(sample, field) == Ok([v])
    ensures var found := DQA.ExistsValue(v, "", true);
            DQA.CheckExists(sample, field, Obj([("exists", Bool(true))])) == Ok(DQA.Finish("missing", field + ".", [found]))
            && DQA.Finish("missing", field + ".", [found]).result == found
  {
    var specs: seq<(string, Json)> := [("exists", Bool(true))];
    LookupAt(specs, "exists", 0);
    DQA.CheckExistsChecks(sample, field, Obj(specs), field, "", true);
    assert field + "." + "" == field + ".";
    assert DQA.RecordEach([v], DQA.ExistsCheck("", true)) == [DQA.ExistsValue(v, "", true)] by {
      assert [v][0] == v;
    }
  }

  /** The empty key is found in every string, and in no number and not in null. */
  lemma EmptyKeyFound(v: Json)
    ensures v.Str? ==> DQA.ExistsValue(v, "", true)
    ensures IsNumber(v) || v.Null? ==> !DQA.ExistsValue(v, "", true)
  {
    if v.Str? {
      assert PyText.IsPrefix("", v.s[0..]);
    }
  }

  /** The order of a categorical rule's values does not change what it accepts. */
  lemma CategoricalOrderIrrelevant(v: Json, a: seq<Json>, b: seq<Json>)
    requires forall x :: x in a <==> x in b
    ensures DQA.CategoricalValue(v, Arr(a)) == DQA.CategoricalValue(v, Arr(b))
  {
    if AnyEq(v, a) {
      var i :| 0 <= i < |a| && PyEq(v, a[i]);
      assert a[i] in b;
    }
    if AnyEq(v, b) {
      var i :| 0 <= i < |b| && PyEq(v, b[i]);
      assert b[i] in a;
    }
  }
}
