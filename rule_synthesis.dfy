/**
 * Turning the collected statistics into DQA rules, and the processor's
 * transform: format detection, fingerprinting, the per-JVM rule cache
 * keyed by dataset and fingerprint, and the attributes written back.
 */
module RuleSynthesis {
  import opened Wrappers
  import opened PyText
  import opened JsonValue
  import opened PathResolver
  import opened RuleInference
  import opened FieldProfile

  // ---------------------------------------------------------------------------
  // Rules

  /** A rule as the builder writes it: {"name": ..., "feature": ..., "specs": {...}}. */
  datatype RuleSpec = RuleSpec(name: string, feature: string, specs: seq<(string, Json)>)

  /** The names the builder writes. */
  predicate IsBuiltName(name: string) {
    name in {"exists", "datatype", "domain", "categorical", "regex"}
  }

  /** The rule as the mapping the YAML document holds. */
  function RuleJson(rule: RuleSpec): (j: Json)
    ensures j.Obj? && Lookup(j.fields, "name") == Some(Str(rule.name))
    ensures Lookup(j.fields, "feature") == Some(Str(rule.feature))
    ensures Lookup(j.fields, "specs") == Some(Obj(rule.specs))
  {
    Obj([("name", Str(rule.name)), ("feature", Str(rule.feature)), ("specs", Obj(rule.specs))])
  }

  /** The datatype labels that get a domain rule. */
  predicate IsNumericLabel(typeName: string) {
    typeName == "INTEGER" || typeName == "FLOAT"
  }

  /** Whether a domain rule is emitted: a numeric type and a recorded range. */
  predicate WantsDomain(st: FieldStats) {
    IsNumericLabel(ChooseType(st.typeCounts)) && st.numericMin.Some? && st.numericMax.Some?
  }

  /** Whether a categorical rule is emitted: some categories, no more than the cap. */
  predicate WantsCategorical(st: FieldStats, maxCategories: nat) {
    st.categories != [] && |st.categories| <= maxCategories
  }

  /** The specs of the domain rule. */
  function DomainSpecs(st: FieldStats): seq<(string, Json)>
    requires st.numericMin.Some? && st.numericMax.Some?
  {
    [("min", Num(st.numericMin.value)), ("max", Num(st.numericMax.value))]
  }

  /** The domain rule of a field, when its type is numeric and a range was recorded. */
  function DomainRules(field: string, st: FieldStats): (rules: seq<RuleSpec>)
    ensures rules != [] <==> WantsDomain(st)
  {
    if WantsDomain(st) then [RuleSpec("domain", field, DomainSpecs(st))] else []
  }

  /** The categorical rule of a field, listing the collected categories. */
  function CategoricalRules(field: string, st: FieldStats, maxCategories: nat): (rules: seq<RuleSpec>)
    ensures rules != [] <==> WantsCategorical(st, maxCategories)
  {
    if WantsCategorical(st, maxCategories) then [RuleSpec("categorical", field, [("values", Arr(st.categories))])]
    else []
  }

  /** The regex rule of a field, when derivation is on and the samples have a common shape. */
  function RegexRules(field: string, st: FieldStats, deriveRegex: bool): (rules: seq<RuleSpec>)
    ensures rules != [] <==> deriveRegex && DeriveRegex(st.samples).Some?
  {
    if deriveRegex then
      match DeriveRegex(st.samples)
      case Some(pattern) => [RuleSpec("regex", field, [("regex", Str(pattern))])]
      case None => []
    else []
  }

  /**
   * The rules for one field: none when it was never seen; otherwise an
   * exists rule (required when it was never missing) and a datatype rule,
   * then a domain, a categorical and a regex rule when they apply.
   */
  function FieldRules(field: string, st: FieldStats, maxCategories: nat, deriveRegex: bool): (rules: seq<RuleSpec>)
    ensures st.count + st.missing == 0 <==> rules == []
    ensures st.count + st.missing > 0 ==>
              && |rules| >= 2
              && rules[0] == RuleSpec("exists", field, [("exists", Bool(st.missing == 0))])
              && rules[1] == RuleSpec("datatype", field, [("type", Str(ChooseType(st.typeCounts)))])
  {
    if st.count + st.missing == 0 then []
    else
      [RuleSpec("exists", field, [("exists", Bool(st.missing == 0))]),
       RuleSpec("datatype", field, [("type", Str(ChooseType(st.typeCounts)))])]
        + DomainRules(field, st) + CategoricalRules(field, st, maxCategories) + RegexRules(field, st, deriveRegex)
  }

  /** Every rule of a field is about that field and has a kind the evaluator knows. */
  lemma FieldRulesNamed(field: string, st: FieldStats, maxCategories: nat, deriveRegex: bool)
    ensures var rules := FieldRules(field, st, maxCategories, deriveRegex);
            forall k :: 0 <= k < |rules| ==> rules[k].feature == field && IsBuiltName(rules[k].name)
  {
  }

  /** The rules of the fields of order, in order, each with its entry in the statistics. */
  function RulesFor(order: seq<string>, stats: map<string, FieldStats>, maxCategories: nat, deriveRegex: bool): (rules: seq<RuleSpec>)
    ensures forall k :: 0 <= k < |rules| ==> IsBuiltName(rules[k].name) && rules[k].feature in order
    decreases |order|
  {
    if order == [] then []
    else
      var f := order[|order| - 1];
      var init := RulesFor(order[..|order| - 1], stats, maxCategories, deriveRegex);
      var own := FieldRules(f, if f in stats then stats[f] else EmptyStats, maxCategories, deriveRegex);
      FieldRulesNamed(f, if f in stats then stats[f] else EmptyStats, maxCategories, deriveRegex);
      RulesForStep(order, init, own);
      init + own
  }

  /** Rules for the earlier fields followed by those of the last field are rules for fields of order. */
  lemma RulesForStep(order: seq<string>, init: seq<RuleSpec>, own: seq<RuleSpec>)
    requires order != []
    requires forall k :: 0 <= k < |init| ==> IsBuiltName(init[k].name) && init[k].feature in order[..|order| - 1]
    requires forall k :: 0 <= k < |own| ==> IsBuiltName(own[k].name) && own[k].feature == order[|order| - 1]
    ensures forall k :: 0 <= k < |init + own| ==> IsBuiltName((init + own)[k].name) && (init + own)[k].feature in order
  {
    forall k | 0 <= k < |init| ensures init[k].feature in order {
      assert init[k].feature in order[..|order| - 1];
      var m :| 0 <= m < |order| - 1 && order[..|order| - 1][m] == init[k].feature;
      assert order[m] == init[k].feature;
    }
  }

  /**
   * The body of the loop of _build_rules_yaml for one field: append its
   * exists and datatype rules, then its domain, categorical and regex
   * rules when they apply; a field never seen appends nothing.
   */
  method AppendFieldRules(rules0: seq<RuleSpec>, field: string, st: FieldStats, maxCategories: nat, deriveRegex: bool)
    returns (rules: seq<RuleSpec>)
    ensures rules == rules0 + FieldRules(field, st, maxCategories, deriveRegex)
  {
    rules := rules0;
    if st.count + st.missing == 0 {
      return;
    }
    var typeName := ChooseType(st.typeCounts);
    ghost var always := [RuleSpec("exists", field, [("exists", Bool(st.missing == 0))]),
                         RuleSpec("datatype", field, [("type", Str(typeName))])];
    rules := rules + [RuleSpec("exists", field, [("exists", Bool(st.missing == 0))])];
    rules := rules + [RuleSpec("datatype", field, [("type", Str(typeName))])];
    ghost var base := rules;
    assert base == rules0 + always;
    if IsNumericLabel(typeName) && st.numericMin.Some? && st.numericMax.Some? {
      rules := rules + [RuleSpec("domain", field, DomainSpecs(st))];
    }
    ghost var withDomain := rules;
    if st.categories != [] && |st.categories| <= maxCategories {
      rules := rules + [RuleSpec("categorical", field, [("values", Arr(st.categories))])];
    }
    ghost var withCategorical := rules;
    if deriveRegex {
      var regex := DeriveRegex(st.samples);
      if regex.Some? {
        rules := rules + [RuleSpec("regex", field, [("regex", Str(regex.value))])];
      }
    }
    assert withDomain == base + DomainRules(field, st);
    assert withCategorical == withDomain + CategoricalRules(field, st, maxCategories);
    assert rules == withCategorical + RegexRules(field, st, deriveRegex);
    AppendParts(rules0, always, DomainRules(field, st), CategoricalRules(field, st, maxCategories),
                RegexRules(field, st, deriveRegex), rules);
  }

  /** Appending four parts one after the other appends their concatenation. */
  lemma AppendParts<T>(r0: seq<T>, a: seq<T>, b: seq<T>, c: seq<T>, d: seq<T>, r: seq<T>)
    requires r == r0 + a + b + c + d
    ensures r == r0 + (a + b + c + d)
  {
  }

  /**
   * _build_rules_yaml: the loop over the fields in first-seen order that
   * appends each field's rules to the list.
   */
  method BuildRules(profile: Profile, maxCategories: nat, deriveRegex: bool) returns (rules: seq<RuleSpec>)
    ensures rules == RulesFor(profile.order, profile.stats, maxCategories, deriveRegex)
  {
    rules := [];
    var i := 0;
    while i < |profile.order|
      invariant i <= |profile.order|
      invariant rules == RulesFor(profile.order[..i], profile.stats, maxCategories, deriveRegex)
    {
      var field := profile.order[i];
      var st := if field in profile.stats then profile.stats[field] else EmptyStats;
      assert profile.order[..i + 1][..i] == profile.order[..i];
      rules := AppendFieldRules(rules, field, st, maxCategories, deriveRegex);
      i := i + 1;
    }
    assert profile.order[..i] == profile.order;
  }

  /** The rules as the list of mappings in the YAML document. */
  function RulesJson(rules: seq<RuleSpec>): (js: seq<Json>)
    ensures |js| == |rules| && forall k :: 0 <= k < |rules| ==> js[k] == RuleJson(rules[k])
  {
    if rules == [] then [] else [RuleJson(rules[0])] + RulesJson(rules[1..])
  }

  /** The YAML document {"rules": [...]} as a value. */
  function RulesDocument(rules: seq<RuleSpec>): (doc: Json)
    ensures doc.Obj? && Lookup(doc.fields, "rules") == Some(Arr(RulesJson(rules)))
  {
    Obj([("rules", Arr(RulesJson(rules)))])
  }

  // ---------------------------------------------------------------------------
  // What the rules of a collected profile say

  /** The categories never exceed the cap, so a categorical rule is written exactly when there is a category. */
  lemma CategoricalGuardRedundant(st: FieldStats, maxCategories: nat, deriveRegex: bool)
    requires StatsValid(st, maxCategories, deriveRegex)
    ensures WantsCategorical(st, maxCategories) <==> st.categories != []
  {
  }

  /** A domain rule written from valid statistics has its minimum no greater than its maximum. */
  lemma DomainBoundsOrdered(st: FieldStats, maxCategories: nat, deriveRegex: bool)
    requires StatsValid(st, maxCategories, deriveRegex) && WantsDomain(st)
    ensures st.numericMin.value <= st.numericMax.value
  {
  }

  /** A histogram whose most frequent type is numeric has a recorded range, so a domain rule follows. */
  lemma NumericTypeHasRange(st: FieldStats, maxCategories: nat, deriveRegex: bool)
    requires StatsValid(st, maxCategories, deriveRegex)
    requires st.typeCounts != [] && IsNumericLabel(ChooseType(st.typeCounts))
    ensures WantsDomain(st)
  {
    var i := MostCommon(st.typeCounts);
    var t := st.typeCounts[i].0;
    assert t == IntType || t == FloatType;
    CountOfAtLeast(st.typeCounts, i);
  }

  /** An entry of the histogram contributes its count to CountOf its type. */
  lemma {:induction false} CountOfAtLeast(tc: TypeCounts, i: nat)
    requires i < |tc|
    ensures CountOf(tc, tc[i].0) >= tc[i].1
    decreases |tc|
  {
    if i < |tc| - 1 {
      CountOfAtLeast(tc[..|tc| - 1], i);
    }
  }

  // ---------------------------------------------------------------------------
  // The processor

  /** An attribute of the outgoing flowfile: text, or the rules document serialised as YAML. */
  datatype AttrValue = Text(text: string) | RulesYaml(rules: seq<RuleSpec>)

  /** The outcome of transform: the success relationship with the new attributes, or failure. */
  datatype Outcome = Built(attributes: map<string, AttrValue>, rules: seq<RuleSpec>) | BuildFailed

  /** attrs.get(name, default). */
  function AttrOr(attrs: map<string, string>, name: string, default: string): string {
    if name in attrs then attrs[name] else default
  }

  /** The incoming attributes, unchanged, as outgoing values. */
  function Lift(attrs: map<string, string>): (m: map<string, AttrValue>)
    ensures m.Keys == attrs.Keys && forall k :: k in attrs ==> m[k] == Text(attrs[k])
  {
    map k | k in attrs :: Text(attrs[k])
  }

  /** Inference on a cache miss: parse the head of the content, collect statistics, build the rules. */
  function Infer(f: Format, content: Content, sampleSize: nat, maxCategories: nat, deriveRegex: bool): (r: Result<seq<RuleSpec>, Failure>)
    ensures r.Ok? ==> ParseRecords(f, content, sampleSize).Ok?
    ensures r.Ok? ==> Collect(ParseRecords(f, content, sampleSize).value, maxCategories, deriveRegex).Ok?
  {
    match ParseRecords(f, content, sampleSize)
    case Err(e) => Err(e)
    case Ok(records) =>
      match Collect(records, maxCategories, deriveRegex)
      case Err(e) => Err(e)
      case Ok(p) =>
        Ok(RulesFor(p.order, p.stats, maxCategories, deriveRegex))
  }

  /**
   * The rule builder processor after onScheduled: its configuration and
   * the in-memory cache from "dataset:fingerprint" to the rules document.
   */
  class RuleBuilder {
    const sampleSize: nat
    const maxCategories: nat
    const deriveRegex: bool
    const datasetIdAttr: string
    const fingerprintAttr: string
    const formatSetting: string
    var cache: map<string, seq<RuleSpec>>

    /** onScheduled: read the properties (an empty format means AUTO) and start with an empty cache. */
    constructor (sampleSize: nat, maxCategories: nat, deriveRegex: bool, datasetIdAttr: string,
                 fingerprintAttr: string, formatSetting: string)
      ensures this.sampleSize == sampleSize && this.maxCategories == maxCategories
      ensures this.deriveRegex == deriveRegex
      ensures this.datasetIdAttr == datasetIdAttr && this.fingerprintAttr == fingerprintAttr
      ensures this.formatSetting == (if formatSetting == "" then "AUTO" else formatSetting)
      ensures cache == map[]
    {
      this.sampleSize := sampleSize;
      this.maxCategories := maxCategories;
      this.deriveRegex := deriveRegex;
      this.datasetIdAttr := datasetIdAttr;
      this.fingerprintAttr := fingerprintAttr;
      this.formatSetting := if formatSetting == "" then "AUTO" else formatSetting;
      cache := map[];
    }

    /** The dataset identifier: the configured attribute, or "default-dataset". */
    function DatasetId(attrs: map<string, string>): string
      reads this
    {
      AttrOr(attrs, datasetIdAttr, "default-dataset")
    }

    /** The fingerprint: the configured attribute when present and non-empty, else the handler's. */
    function FingerprintOf(content: Content, attrs: map<string, string>, hash: Hasher): (fp: string)
      reads this
      ensures fingerprintAttr in attrs && attrs[fingerprintAttr] != "" ==> fp == attrs[fingerprintAttr]
      ensures !(fingerprintAttr in attrs && attrs[fingerprintAttr] != "") ==>
                fp == Fingerprint(DetectFormat(content.text, formatSetting), content, hash)
    {
      if fingerprintAttr in attrs && attrs[fingerprintAttr] != "" then attrs[fingerprintAttr]
      else Fingerprint(DetectFormat(content.text, formatSetting), content, hash)
    }

    /** The cache key "dataset:fingerprint". */
    function CacheKey(content: Content, attrs: map<string, string>, hash: Hasher): string
      reads this
    {
      DatasetId(attrs) + ":" + FingerprintOf(content, attrs, hash)
    }

    /** The attributes written on success, in the order transform writes them. */
    function NewAttributes(content: Content, attrs: map<string, string>, hash: Hasher, rules: seq<RuleSpec>): (m: map<string, AttrValue>)
      reads this
      ensures m.Keys == attrs.Keys + {"dqa.rules", "dqa.version", datasetIdAttr, fingerprintAttr, "dqa.format"}
      ensures m["dqa.format"] == Text(FormatName(DetectFormat(content.text, formatSetting)))
      ensures "dqa.format" != fingerprintAttr ==> m[fingerprintAttr] == Text(FingerprintOf(content, attrs, hash))
      ensures forall k :: k in attrs && k !in {"dqa.rules", "dqa.version", datasetIdAttr, fingerprintAttr, "dqa.format"} ==>
                m[k] == Text(attrs[k])
    {
      var fp := FingerprintOf(content, attrs, hash);
      Lift(attrs)["dqa.rules" := RulesYaml(rules)]["dqa.version" := Text(fp)][datasetIdAttr := Text(DatasetId(attrs))]
        [fingerprintAttr := Text(fp)]["dqa.format" := Text(FormatName(DetectFormat(content.text, formatSetting)))]
    }

    /**
     * transform: a cached key returns the cached rules without parsing; a
     * miss infers the rules and caches them; any failure routes to failure
     * and leaves the cache as it was.
     */
    method Transform(content: Content, attrs: map<string, string>, hash: Hasher) returns (r: Outcome)
      modifies this`cache
      ensures var key := CacheKey(content, attrs, hash);
              key in old(cache) ==> cache == old(cache) && r == Built(NewAttributes(content, attrs, hash, old(cache)[key]), old(cache)[key])
      ensures var key := CacheKey(content, attrs, hash);
              var inferred := Infer(DetectFormat(content.text, formatSetting), content, sampleSize, maxCategories, deriveRegex);
              key !in old(cache) && inferred.Ok? ==>
                cache == old(cache)[key := inferred.value] && r == Built(NewAttributes(content, attrs, hash, inferred.value), inferred.value)
      ensures var key := CacheKey(content, attrs, hash);
              var inferred := Infer(DetectFormat(content.text, formatSetting), content, sampleSize, maxCategories, deriveRegex);
              key !in old(cache) && inferred.Err? ==> cache == old(cache) && r == BuildFailed
      ensures r.Built? ==> CacheKey(content, attrs, hash) in cache && cache[CacheKey(content, attrs, hash)] == r.rules
    {
      var datasetId := AttrOr(attrs, datasetIdAttr, "default-dataset");
      var fmt := DetectFormat(content.text, formatSetting);
      var fingerprint := if fingerprintAttr in attrs then attrs[fingerprintAttr] else "";
      if fingerprint == "" {
        fingerprint := Fingerprint(fmt, content, hash);
      }
      var key := datasetId + ":" + fingerprint;
      var rules: seq<RuleSpec>;
      if key in cache {
        rules := cache[key];
      } else {
        var records := ParseRecords(fmt, content, sampleSize);
        if records.Err? {
          return BuildFailed;
        }
        var profile := CollectStats(records.value, maxCategories, deriveRegex);
        if profile.Err? {
          return BuildFailed;
        }
        rules := BuildRules(profile.value, maxCategories, deriveRegex);
        cache := cache[key := rules];
      }
      r := Built(NewAttributes(content, attrs, hash, rules), rules);
    }
  }
}
