# Data-quality pipeline of moderate-diva-deployment, modelled in Dafny

This project models the rule logic of the MODERATE data-quality pipeline and proves properties about it. It covers six parts:

- **Rule evaluator** (`StandardValidator` in the DQA validator NiFi processor). It takes a decoded JSON record and a YAML rule list. Each rule names a check kind (`domain`, `strlen`, `datatype`, `categorical`, `exists`, `regex`), a feature path and its specs. Each rule yields one result whose `result` is the conjunction of its per-value `checks`. The processor routes the record to `valid` or `invalid`; an exception anywhere routes it to `failure`.
- **Rule builder** (`RuleBuilderProcessor`). It detects CSV or JSON and cuts the sample to its head. It gathers per-field statistics: value and missing counts, a type histogram, a numeric range, and capped categories and samples. It infers one rule set per field and caches that set under `dataset:fingerprint`.
- **Schema trust counter** (`Validator` in the schema validator processor). It counts how often each schema key is seen. A key becomes trusted at a threshold, and the counter then publishes it to the registry under a numbered subject. Keys seen at most twice are cleaned up periodically.
- **Report aggregation** of the quality reporter (`TopicStats`). A batch of validation messages becomes per-(validator, rule, feature) valid/fail counters. These are upserted into the report table by either database dialect.
- **Report client** (`quality_report_client.py`). It covers entry totals and pass rates, reading API rows, the report filters, the ASCII table and the per-validator summary.
- **Dataset publisher** (`publish_dataset.py`). It derives a dataset id from a URL path, normalises the REST client's settings, builds the publish payload, and assembles messages from a request file or the command line.

The modules follow the source:

- `Wrappers`, `PyText`, `JsonValue` (`wrappers.dfy`, `py_text.dfy`, `json_value.dfy`): Option/Result; the Python string and value semantics the code relies on (strip, `int()`, `float()`, `str()`, `==`, ordering, `in`, truthiness).
- `PathResolver` (`path_resolver.dfy`): `_get_values`: `*` leaves and dotted JMESPath lookups.
- `DqaValidator` (`dqa_validator.dfy`): the six checks, `validate`, the constructor's checks, the routing in `transform`.
- `RuleInference`, `FieldProfile`, `RuleSynthesis` (`rule_inference.dfy`, `field_profile.dfy`, `rule_synthesis.dfy`): the rule builder: handlers, `_infer_type`, `_choose_type`, `_derive_regex`, `_collect_stats` (a fold and an imperative method), `_build_rules_yaml` (a method), and the processor class with its cache.
- `RulePipeline` (`rule_pipeline.dfy`): how built rules read back in the evaluator.
- `SchemaTrust` (`schema_trust.dfy`): the `Validator` class and its state.
- `Counters`, `ReportStats` (`counters.dfy`, `report_stats.dfy`): counter folding and upserting; the `TopicStats` class.
- `ReportEntries`, `ReportRows`, `TextLayout`, `ReportTable`, `ReportSummary` (`report_entry.dfy`, `report_rows.dfy`, `text_layout.dfy`, `report_table.dfy`, `report_summary.dfy`): the report client.
- `DatasetPublisher` (`dataset_publisher.dfy`): the publish script.

The parts that change state in the source are classes or methods with loop invariants. Each is proved against a specification function: `RuleBuilder.Transform` and its cache, `CollectStats`, `BuildRules`, `Validator.Validate`/`Cleanup`/`GetUpdatedInfo`, `TopicStats.BatchUpdate` and both upsert dialects, `FormatTable`, `FormatSummary`, `KafkaRestClient.Publish` and `LoadMessages`.

The model makes some consequences of the code explicit:

- **A builder exists rule on a top-level field is read with an empty key.** The builder writes an exists rule on a bare field name. The evaluator splits that name at its last dot into (`field`, `""`), then tests `"" in value` for the field's value. So a number or null there fails the required-field rule, while any string passes it (`RulePipeline.ExistsRuleOnTopLevelField`).
- **Built domain rules accept their own sample, with floats as exact reals.** A domain rule built from a sample accepts every top-level native number of that sample (`RulePipeline.DomainRuleAcceptsObservedNumbers`). In Python the range is kept as floats: a native int above 2^53 can fall outside its own rounded range, and an int too large for a float makes the builder fail (see "## Left out").
- **Trust survives only above a threshold of 2.** A trusted schema is never dropped by counting or cleanup when the threshold is above 2 (`SchemaTrust.TrustIsKept`). With a threshold of 2 or less, cleanup deletes trusted schemas too.
- **An uncoerced string against a numeric bound fails the record, not the check.** A string value against a numeric `domain` bound without coercion raises TypeError at `min_value <= value` (DQAValidator.py:243-246). So the record goes to `failure` instead of failing the check (`DqaValidator.DomainRejectsUncoercedString`).

## Model

| member | source | states |
|---|---|---|
| `PyText.LStrip` | ansible-configurator/NiFi_Processors/vendored/rule-builder/RuleBuilderProcessor.py:105 | lstrip(): a suffix of the input whose removed prefix is all whitespace and which does not start with whitespace |
| `PyText.RStrip` | ansible-configurator/NiFi_Processors/vendored/rule-builder/RuleBuilderProcessor.py:340 | the right half of strip(): a prefix of the input whose removed suffix is all whitespace and which does not end with whitespace |
| `PyText.Strip` | ansible-configurator/NiFi_Processors/vendored/rule-builder/RuleBuilderProcessor.py:340 | str.strip(): no whitespace at either end, only whitespace removed, empty exactly for all-whitespace input |
| `PyText.RStripChar` | scripts/publish_dataset.py:66 | rstrip("/"): a prefix of the input not ending in "/", with only "/" removed after it |
| `PyText.NatToStringDigits` | ansible-configurator/NiFi_Processors/vendored/schema-validator/SchemaValidator.py:241 | str(n) is a digit run denoting n, without a leading zero |
| `PyText.IntToStringShape` | ansible-configurator/NiFi_Processors/vendored/dqa-validator/DQAValidator.py:285 | str() of an int starts with a minus sign or a digit and ends with a digit |
| `PyText.ParseIntOfIntToString` | scripts/quality_report_client.py:120-122 | int(str(n)) == n for every integer |
| `PyText.ParseInt` | ansible-configurator/NiFi_Processors/vendored/dqa-validator/DQAValidator.py:239 | int(s): after stripping, a digit run behind at most one sign, valued by its digits and negative only after "-"; every plain digit run parses |
| `PyText.ParseFloat` | ansible-configurator/NiFi_Processors/vendored/dqa-validator/DQAValidator.py:239 | float(s) accepts every string int() accepts, with the same value, and is negative only after "-" |
| `PyText.LastIndexOf` | ansible-configurator/NiFi_Processors/vendored/dqa-validator/DQAValidator.py:422 | rfind: the index of the last occurrence (none after it), or -1 exactly when absent |
| `PyText.IndexOf` | ansible-configurator/NiFi_Processors/vendored/dqa-validator/DQAValidator.py:239 | find(c): the first occurrence (none before it), or -1 exactly when c is absent |
| `PyText.Contains` | ansible-configurator/NiFi_Processors/vendored/dqa-validator/DQAValidator.py:444 | substring `in`: true exactly when the needle occurs at some position |
| `PyText.CompareStrings` | ansible-configurator/NiFi_Processors/vendored/rule-builder/RuleBuilderProcessor.py:113 | string ordering: -1, 0 or 1, and 0 exactly for equal strings |
| `PyText.InsertString` | ansible-configurator/NiFi_Processors/vendored/rule-builder/RuleBuilderProcessor.py:113 | inserting into an ascending list keeps it ascending and adds exactly that string |
| `PyText.InsertPastHead` | ansible-configurator/NiFi_Processors/vendored/rule-builder/RuleBuilderProcessor.py:113 | the head of a sorted list below the new string stays in front of the insertion into the tail |
| `PyText.Split` | scripts/publish_dataset.py:67 | split(c): at least one piece, none containing c, joining back to the input |
| `PyText.SortStrings` | scripts/quality_report_client.py:197 | sorted(): ascending by code point and a permutation of the input |
| `PyText.SortedUnique` | scripts/quality_report_client.py:197 | two ascending arrangements of the same strings are equal, so the sorted order is determined |
| `JsonValue.Lookup` | ansible-configurator/NiFi_Processors/vendored/dqa-validator/DQAValidator.py:228-230 | dict.get: found exactly when the key is present, and the value is that of an entry with the key |
| `JsonValue.LookupUnique` | ansible-configurator/NiFi_Processors/vendored/dqa-validator/DQAValidator.py:228-230 | in a mapping with distinct keys, get() of each entry's key returns that entry's value |
| `JsonValue.CompareLists` | ansible-configurator/NiFi_Processors/vendored/dqa-validator/DQAValidator.py:243-248 | list ordering, element by element: -1, 0 or 1 whenever the elements compare |
| `JsonValue.Compare` | ansible-configurator/NiFi_Processors/vendored/dqa-validator/DQAValidator.py:243-248 | Python ordering: numbers (bools as 0/1) by value, strings equal only when identical; TypeError between a number and a non-number, and with null or a mapping |
| `JsonValue.PyIn` | ansible-configurator/NiFi_Processors/vendored/dqa-validator/DQAValidator.py:444-450 | `x in c`: element equality in a list, key membership in a mapping (TypeError for an unhashable x), substring in a string (TypeError unless x is a string), TypeError for null and numbers |
| `JsonValue.PyEqReflexive` | ansible-configurator/NiFi_Processors/vendored/dqa-validator/DQAValidator.py:389-390 | `==` is reflexive on decoded values |
| `JsonValue.FloatRepr` | ansible-configurator/NiFi_Processors/vendored/dqa-validator/DQAValidator.py:285 | str() of a float always shows a decimal point |
| `JsonValue.CharEscape` | ansible-configurator/NiFi_Processors/vendored/dqa-validator/DQAValidator.py:285 | repr() writes a character as itself or as an escape made only of printable characters |
| `JsonValue.Escaped` | ansible-configurator/NiFi_Processors/vendored/dqa-validator/DQAValidator.py:285 | the escaped body is at least as long as the text and holds no tab, newline, carriage return or unprintable character |
| `JsonValue.StrRepr` | ansible-configurator/NiFi_Processors/vendored/dqa-validator/DQAValidator.py:285 | repr() of a string: between matching quotes (double only when the text has single quotes and no double ones), printable throughout, and reading back to the text |
| `JsonValue.UnescapeChar` | ansible-configurator/NiFi_Processors/vendored/dqa-validator/DQAValidator.py:285 | an escaped character followed by more text reads back as that character first |
| `JsonValue.UnescapeEscaped` | ansible-configurator/NiFi_Processors/vendored/dqa-validator/DQAValidator.py:285 | reading back the escaped body gives the original text |
| `JsonValue.PlainStrRepr` | ansible-configurator/NiFi_Processors/vendored/dqa-validator/DQAValidator.py:285 | text without quotes, backslashes or escaped characters is written between single quotes as it is |
| `JsonValue.SingleEntryRepr` | ansible-configurator/NiFi_Processors/vendored/dqa-validator/DQAValidator.py:285 | repr() of a one-entry mapping with a string value is the repr() of key and value in braces |
| `JsonValue.SingleEntryStr` | ansible-configurator/NiFi_Processors/vendored/dqa-validator/DQAValidator.py:285 | str() of such a mapping is its repr() |
| `JsonValue.NewlineEscaped` | ansible-configurator/NiFi_Processors/vendored/dqa-validator/DQAValidator.py:285 | a newline inside a string is written as backslash-n |
| `JsonValue.PyStr` | ansible-configurator/NiFi_Processors/vendored/dqa-validator/DQAValidator.py:285 | str(v): a string is itself, an int reads back through int(), None renders as "None" |
| `PathResolver.Leaves` | ansible-configurator/NiFi_Processors/vendored/dqa-validator/DQAValidator.py:515-527 | extract_values yields only scalars, and a scalar is its own single leaf |
| `PathResolver.LeavesOfScalarList` | ansible-configurator/NiFi_Processors/vendored/dqa-validator/DQAValidator.py:521-525 | a list of scalars flattens to itself |
| `PathResolver.LeavesIdempotent` | ansible-configurator/NiFi_Processors/vendored/dqa-validator/DQAValidator.py:515-527 | flattening the leaves again changes nothing |
| `PathResolver.ChildLeavesIncluded` | ansible-configurator/NiFi_Processors/vendored/dqa-validator/DQAValidator.py:516-525 | every leaf of a child is a leaf of its container, duplicates included (multiset inclusion) |
| `PathResolver.Follow` | ansible-configurator/NiFi_Processors/vendored/dqa-validator/DQAValidator.py:534 | a sub-expression chain: no step is the value itself, a step on a non-object is null |
| `PathResolver.Search` | ansible-configurator/NiFi_Processors/vendored/dqa-validator/DQAValidator.py:534 | jmespath.search is defined exactly for dotted identifier paths and follows their keys |
| `PathResolver.GetValues` | ansible-configurator/NiFi_Processors/vendored/dqa-validator/DQAValidator.py:531-538 | `*` gives the sample's leaves; another path gives its list unchanged, or its single result (null when absent) in a one-element list |
| `PathResolver.TopLevelLookup` | ansible-configurator/NiFi_Processors/vendored/dqa-validator/DQAValidator.py:534 | a one-identifier path reads that key of the record, null when absent |
| `DqaValidator.All` | ansible-configurator/NiFi_Processors/vendored/dqa-validator/DQAValidator.py:254 | all(): true exactly when no element is false, so true for no checks |
| `DqaValidator.Finish` | ansible-configurator/NiFi_Processors/vendored/dqa-validator/DQAValidator.py:250-256 | a result carries its kind, feature and checks, an empty description, and holds exactly when every check holds |
| `DqaValidator.Subscript` | ansible-configurator/NiFi_Processors/vendored/dqa-validator/DQAValidator.py:281-282 | specs[key] succeeds exactly on a mapping holding the key, with that key's value; otherwise it raises |
| `DqaValidator.CheckEach` | ansible-configurator/NiFi_Processors/vendored/dqa-validator/DQAValidator.py:232-248 | the per-value loop succeeds exactly when no value raises, recording at most one check per value |
| `DqaValidator.CheckEachDecided` | ansible-configurator/NiFi_Processors/vendored/dqa-validator/DQAValidator.py:232-248 | when every value decides, there is one check per value, in value order |
| `DqaValidator.CheckEachUndecided` | ansible-configurator/NiFi_Processors/vendored/dqa-validator/DQAValidator.py:243-248 | when no value decides, nothing is recorded |
| `DqaValidator.CheckEachRecorded` | ansible-configurator/NiFi_Processors/vendored/dqa-validator/DQAValidator.py:232-248 | every recorded check is the decision on some resolved value |
| `DqaValidator.RecordEach` | ansible-configurator/NiFi_Processors/vendored/dqa-validator/DQAValidator.py:441-451 | a loop that cannot raise records one check per value when each decides, none when none does |
| `DqaValidator.CoerceNumeric` | ansible-configurator/NiFi_Processors/vendored/dqa-validator/DQAValidator.py:237-242 | with '.', 'e' or 'E' the string goes through float(), otherwise through int(); the result is a number exactly when that parse succeeds |
| `DqaValidator.WithinBounds` | ansible-configurator/NiFi_Processors/vendored/dqa-validator/DQAValidator.py:243-248 | inclusive chained bounds, or one bound alone, or nothing without bounds; a string against a numeric bound raises |
| `DqaValidator.DomainValue` | ansible-configurator/NiFi_Processors/vendored/dqa-validator/DQAValidator.py:232-248 | null fails; a coercion failure fails; without bounds nothing is recorded; coerced and native numbers are checked inclusively |
| `DqaValidator.CheckDomain` | ansible-configurator/NiFi_Processors/vendored/dqa-validator/DQAValidator.py:206-256 | a "domain" result on the path whose outcome is the conjunction of its checks; non-mapping specs raise |
| `DqaValidator.CheckDomainChecks` | ansible-configurator/NiFi_Processors/vendored/dqa-validator/DQAValidator.py:226-248 | the domain checks are the per-value check over the resolved values, with specs.get defaults |
| `DqaValidator.NumberInBounds` | ansible-configurator/NiFi_Processors/vendored/dqa-validator/DQAValidator.py:243-244 | a number between numeric bounds passes exactly when lo <= x <= hi |
| `DqaValidator.DomainWithoutBounds` | ansible-configurator/NiFi_Processors/vendored/dqa-validator/DQAValidator.py:243-248 | with neither bound every recorded check is a failure, and all-numeric values record no check at all |
| `DqaValidator.UnboundedChecks` | ansible-configurator/NiFi_Processors/vendored/dqa-validator/DQAValidator.py:232-248 | the unbounded per-value loop never raises and records only failures |
| `DqaValidator.DomainNumericBounds` | ansible-configurator/NiFi_Processors/vendored/dqa-validator/DQAValidator.py:243-244 | numeric values against numeric bounds: one check per value, true exactly within the closed range |
| `DqaValidator.BoundedChecks` | ansible-configurator/NiFi_Processors/vendored/dqa-validator/DQAValidator.py:243-244 | the bounded per-value loop over numbers records the closed-range test of each value |
| `DqaValidator.DomainRejectsUncoercedString` | ansible-configurator/NiFi_Processors/vendored/dqa-validator/DQAValidator.py:237-246 | without coercion, a string value against a numeric lower bound makes the rule raise |
| `DqaValidator.StrlenValue` | ansible-configurator/NiFi_Processors/vendored/dqa-validator/DQAValidator.py:284-291 | len(str(v)) compared by EXACT ==, LOWER <, UPPER >; nothing recorded for another lenType |
| `DqaValidator.CheckStrlen` | ansible-configurator/NiFi_Processors/vendored/dqa-validator/DQAValidator.py:258-299 | a "strlen" result that needs both "lenType" and "len" in the specs and conjoins its checks |
| `DqaValidator.StrlenExact` | ansible-configurator/NiFi_Processors/vendored/dqa-validator/DQAValidator.py:284-287 | an EXACT rule holds exactly when every value renders to exactly len characters |
| `DqaValidator.DataTypeValue` | ansible-configurator/NiFi_Processors/vendored/dqa-validator/DQAValidator.py:327-355 | STRING only strings, BOOLEAN only bools, INTEGER bools and ints (plus int() strings with coercion), FLOAT all numbers (plus float() strings with coercion); another type records nothing |
| `DqaValidator.IntegerImpliesFloat` | ansible-configurator/NiFi_Processors/vendored/dqa-validator/DQAValidator.py:330-353 | every value passing INTEGER passes FLOAT |
| `DqaValidator.CheckDataType` | ansible-configurator/NiFi_Processors/vendored/dqa-validator/DQAValidator.py:301-363 | a "datatype" result that succeeds exactly when the specs hold "type" |
| `DqaValidator.DataTypeCoverage` | ansible-configurator/NiFi_Processors/vendored/dqa-validator/DQAValidator.py:327-355 | a known type checks every value; an unknown one records nothing and holds |
| `DqaValidator.CategoricalValue` | ansible-configurator/NiFi_Processors/vendored/dqa-validator/DQAValidator.py:389-390 | `value in allowed`: equality with a list element, and raises where Python's `in` raises |
| `DqaValidator.ListedValuePasses` | ansible-configurator/NiFi_Processors/vendored/dqa-validator/DQAValidator.py:389-390 | a value listed among the allowed values passes |
| `DqaValidator.CheckCategorical` | ansible-configurator/NiFi_Processors/vendored/dqa-validator/DQAValidator.py:365-398 | a "categorical" result conjoining its checks |
| `DqaValidator.CategoricalChecksEveryValue` | ansible-configurator/NiFi_Processors/vendored/dqa-validator/DQAValidator.py:385-390 | over an allowed list, one membership check per resolved value |
| `DqaValidator.CategoricalAcceptsListed` | ansible-configurator/NiFi_Processors/vendored/dqa-validator/DQAValidator.py:389-396 | a rule holds when every resolved value is listed |
| `DqaValidator.SplitOnLastDot` | ansible-configurator/NiFi_Processors/vendored/dqa-validator/DQAValidator.py:420-432 | before and after the last dot, rejoining to the path; a dotless path gives (path, "") |
| `DqaValidator.ExistsValue` | ansible-configurator/NiFi_Processors/vendored/dqa-validator/DQAValidator.py:441-451 | passes exactly when `key in value` agrees with "exists"; a TypeError counts as absent, so null and numbers pass exactly when exists is false |
| `DqaValidator.CheckExists` | ansible-configurator/NiFi_Processors/vendored/dqa-validator/DQAValidator.py:400-459 | a "missing" result on container + "." + key with one check per value of the container |
| `DqaValidator.CheckExistsChecks` | ansible-configurator/NiFi_Processors/vendored/dqa-validator/DQAValidator.py:434-459 | the exists checks are the per-value membership test over the container's values |
| `DqaValidator.ExistsFeatureLabel` | ansible-configurator/NiFi_Processors/vendored/dqa-validator/DQAValidator.py:455 | the reported feature is the path itself, or the path plus "." when it has no dot |
| `DqaValidator.ExistsOverMappings` | ansible-configurator/NiFi_Processors/vendored/dqa-validator/DQAValidator.py:441-457 | over mappings, the rule holds exactly when the key's presence agrees with "exists" in every one |
| `DqaValidator.RegexValue` | ansible-configurator/NiFi_Processors/vendored/dqa-validator/DQAValidator.py:485-486 | a full match of str(v); a non-string or invalid pattern raises |
| `DqaValidator.CheckRegex` | ansible-configurator/NiFi_Processors/vendored/dqa-validator/DQAValidator.py:461-494 | a "regex" result conjoining its checks |
| `DqaValidator.KindNamed` | ansible-configurator/NiFi_Processors/vendored/dqa-validator/DQAValidator.py:186-197 | each of the six names selects a check; only a string can |
| `DqaValidator.Label` | ansible-configurator/NiFi_Processors/vendored/dqa-validator/DQAValidator.py:454 | only the exists check reports under "missing" |
| `DqaValidator.Apply` | ansible-configurator/NiFi_Processors/vendored/dqa-validator/DQAValidator.py:186-197 | dispatch yields a result labelled for its kind, conjoining its checks; a non-string path raises |
| `DqaValidator.RuleResults` | ansible-configurator/NiFi_Processors/vendored/dqa-validator/DQAValidator.py:181-197 | a rule that evaluates has name, feature and specs, and yields one result when its kind is known and none otherwise |
| `DqaValidator.RuleStepSound` | ansible-configurator/NiFi_Processors/vendored/dqa-validator/DQAValidator.py:181-197 | the per-rule step is well shaped and conjoined, for every rule |
| `DqaValidator.GatherReadable` | ansible-configurator/NiFi_Processors/vendored/dqa-validator/DQAValidator.py:181-184 | every rule of a list that evaluates has name, feature and specs |
| `DqaValidator.GatherKinds` | ansible-configurator/NiFi_Processors/vendored/dqa-validator/DQAValidator.py:180-197 | the results come one per known rule, in rule order |
| `DqaValidator.ValidateRules` | ansible-configurator/NiFi_Processors/vendored/dqa-validator/DQAValidator.py:180-197 | the rules fail exactly when one of them raises; otherwise one result per known rule, in rule order |
| `DqaValidator.GatherFails` | ansible-configurator/NiFi_Processors/vendored/dqa-validator/DQAValidator.py:180-197 | gathering fails exactly when some rule's step raises |
| `DqaValidator.GatherConjoined` | ansible-configurator/NiFi_Processors/vendored/dqa-validator/DQAValidator.py:180-197 | every gathered result is the conjunction of its checks |
| `DqaValidator.GatherSkipsUnknown` | ansible-configurator/NiFi_Processors/vendored/dqa-validator/DQAValidator.py:186-197 | a list of rules with unknown names yields no results |
| `DqaValidator.UnknownRuleSkipped` | ansible-configurator/NiFi_Processors/vendored/dqa-validator/DQAValidator.py:186-197 | a rule with any other name contributes nothing |
| `DqaValidator.UnknownRulesSkipped` | ansible-configurator/NiFi_Processors/vendored/dqa-validator/DQAValidator.py:180-197 | validating only unknown rules yields an empty result list |
| `DqaValidator.NewValidator` | ansible-configurator/NiFi_Processors/vendored/dqa-validator/DQAValidator.py:151-164 | construction succeeds exactly for a mapping holding a "rules" list, which it keeps |
| `DqaValidator.Validate` | ansible-configurator/NiFi_Processors/vendored/dqa-validator/DQAValidator.py:166-204 | the report carries the id and the sample and one conjoined result per known rule, in rule order |
| `DqaValidator.AllResults` | ansible-configurator/NiFi_Processors/vendored/dqa-validator/DQAValidator.py:101 | all(v['result']): true exactly when every result holds |
| `DqaValidator.Transform` | ansible-configurator/NiFi_Processors/vendored/dqa-validator/DQAValidator.py:89-110 | valid when every result holds, invalid when one fails, failure exactly when decoding, construction or evaluation fails |
| `RuleInference.FormatName` | ansible-configurator/NiFi_Processors/vendored/rule-builder/RuleBuilderProcessor.py:28-33 | the format attribute is "CSV" exactly for CSV |
| `RuleInference.DetectFormat` | ansible-configurator/NiFi_Processors/vendored/rule-builder/RuleBuilderProcessor.py:299-309 | an explicit setting names the format (unknown names fall back to CSV); AUTO or empty picks JSON exactly when the left-trimmed content opens with '{' or '[' |
| `RuleInference.FirstLine` | ansible-configurator/NiFi_Processors/vendored/rule-builder/RuleBuilderProcessor.py:86 | splitlines()[0]: the prefix before the first line boundary |
| `RuleInference.JsonKeyText` | ansible-configurator/NiFi_Processors/vendored/rule-builder/RuleBuilderProcessor.py:111-118 | the sorted top-level keys (of a list's first element); an empty list or a scalar gives ""; a non-mapping first element falls back |
| `RuleInference.Fingerprint` | ansible-configurator/NiFi_Processors/vendored/rule-builder/RuleBuilderProcessor.py:84-120 | CSV hashes the header line; JSON hashes the key text, or the first 128 characters when decoding or key access fails |
| `RuleInference.FingerprintIgnoresKeyOrder` | ansible-configurator/NiFi_Processors/vendored/rule-builder/RuleBuilderProcessor.py:113-115 | mappings with the same keys in any order have the same key text |
| `RuleInference.ParseRecords` | ansible-configurator/NiFi_Processors/vendored/rule-builder/RuleBuilderProcessor.py:89-129 | the first sample_size rows or list items in order; a JSON object is one record; another top level or undecodable text raises |
| `RuleInference.Lower` | ansible-configurator/NiFi_Processors/vendored/rule-builder/RuleBuilderProcessor.py:383 | ASCII lower(): maps each character and keeps the length |
| `RuleInference.InferType` | ansible-configurator/NiFi_Processors/vendored/rule-builder/RuleBuilderProcessor.py:371-396 | bool, then int/float, then "true"/"false" in any case, then int() strings are INTEGER, then float()-only strings FLOAT, any other string STRING; null, lists and mappings STRING |
| `RuleInference.BoolWordsAreNotInts` | ansible-configurator/NiFi_Processors/vendored/rule-builder/RuleBuilderProcessor.py:384-388 | no spelling of true/false parses as an int |
| `RuleInference.LetterLedNotInt` | ansible-configurator/NiFi_Processors/vendored/rule-builder/RuleBuilderProcessor.py:386-390 | int() refuses an unpadded string starting with neither digit nor sign |
| `RuleInference.LowerOfLetter` | ansible-configurator/NiFi_Processors/vendored/rule-builder/RuleBuilderProcessor.py:383 | a character lowering to a letter is neither blank, digit nor sign |
| `RuleInference.IntStringsAreIntegers` | ansible-configurator/NiFi_Processors/vendored/rule-builder/RuleBuilderProcessor.py:383-393 | a string int() accepts is inferred INTEGER, never FLOAT |
| `RuleInference.NumericValue` | ansible-configurator/NiFi_Processors/vendored/rule-builder/RuleBuilderProcessor.py:349 | float(value): an int's value, a float itself, float() of a numeric string |
| `RuleInference.MostCommon` | ansible-configurator/NiFi_Processors/vendored/rule-builder/RuleBuilderProcessor.py:402 | most_common(1): a largest count, the earliest counted among equals |
| `RuleInference.ChooseType` | ansible-configurator/NiFi_Processors/vendored/rule-builder/RuleBuilderProcessor.py:398-409 | the label of the most frequent type (first counted wins ties); STRING for an empty histogram |
| `RuleInference.LooksIsoDate` | ansible-configurator/NiFi_Processors/vendored/rule-builder/RuleBuilderProcessor.py:428-440 | at least 10 characters, '-' at 4 and 7, digits at 0-3, 5-6 and 8-9 |
| `RuleInference.RenderedSamples` | ansible-configurator/NiFi_Processors/vendored/rule-builder/RuleBuilderProcessor.py:413-415 | str() of the scalar samples; all-string samples are kept as they are |
| `RuleInference.DigitsPattern` | ansible-configurator/NiFi_Processors/vendored/rule-builder/RuleBuilderProcessor.py:422 | the fixed-width digit pattern is never the date pattern |
| `RuleInference.DeriveRegex` | ansible-configurator/NiFi_Processors/vendored/rule-builder/RuleBuilderProcessor.py:411-426 | nothing for no samples; `^\d{n}$` for equal-length digit runs; else the date pattern exactly when all look ISO; nothing otherwise |
| `FieldProfile.Bump` | ansible-configurator/NiFi_Processors/vendored/rule-builder/RuleBuilderProcessor.py:347 | Counter[t] += 1: one more of t, the others unchanged, a new type appended at the end |
| `FieldProfile.BumpKeepsShape` | ansible-configurator/NiFi_Processors/vendored/rule-builder/RuleBuilderProcessor.py:347 | the histogram keeps one positive entry per type |
| `FieldProfile.Normalize` | ansible-configurator/NiFi_Processors/vendored/rule-builder/RuleBuilderProcessor.py:336-344 | None and blank strings are missing; other strings are stripped; other values stay |
| `FieldProfile.MinWith` | ansible-configurator/NiFi_Processors/vendored/rule-builder/RuleBuilderProcessor.py:350-354 | the smaller of the old minimum and the value |
| `FieldProfile.MaxWith` | ansible-configurator/NiFi_Processors/vendored/rule-builder/RuleBuilderProcessor.py:355-359 | the larger of the old maximum and the value |
| `FieldProfile.AddCategory` | ansible-configurator/NiFi_Processors/vendored/rule-builder/RuleBuilderProcessor.py:362 | set.add: unchanged when an equal element is present, appended otherwise, TypeError for an unhashable value |
| `FieldProfile.Classify` | ansible-configurator/NiFi_Processors/vendored/rule-builder/RuleBuilderProcessor.py:345-362 | count and histogram advance; numbers widen the range and skip categories; other values enter categories while below the cap |
| `FieldProfile.Observe` | ansible-configurator/NiFi_Processors/vendored/rule-builder/RuleBuilderProcessor.py:336-367 | a missing value only raises `missing`; any other is classified and kept as a sample while derivation is on and there is room |
| `FieldProfile.ObserveField` | ansible-configurator/NiFi_Processors/vendored/rule-builder/RuleBuilderProcessor.py:334-335 | a new field gets an entry and joins the first-seen order |
| `FieldProfile.ObserveRecord` | ansible-configurator/NiFi_Processors/vendored/rule-builder/RuleBuilderProcessor.py:334 | a record that is not a mapping raises AttributeError |
| `FieldProfile.ObserveFieldsErrSticks` | ansible-configurator/NiFi_Processors/vendored/rule-builder/RuleBuilderProcessor.py:334-367 | a failure on a pair ends the record's fold with that failure |
| `FieldProfile.CollectErrSticks` | ansible-configurator/NiFi_Processors/vendored/rule-builder/RuleBuilderProcessor.py:333-367 | a failure on a record ends the collection with that failure |
| `FieldProfile.ObserveRecordFields` | ansible-configurator/NiFi_Processors/vendored/rule-builder/RuleBuilderProcessor.py:334-367 | the inner loop computes the fold over the record's pairs |
| `FieldProfile.CollectStats` | ansible-configurator/NiFi_Processors/vendored/rule-builder/RuleBuilderProcessor.py:319-369 | _collect_stats' nested loops compute the fold over the records |
| `FieldProfile.Collect` | ansible-configurator/NiFi_Processors/vendored/rule-builder/RuleBuilderProcessor.py:319-369 | _collect_stats succeeds only when every record is a mapping (another record raises AttributeError) |
| `FieldProfile.ClassifyKeepsHistogram` | ansible-configurator/NiFi_Processors/vendored/rule-builder/RuleBuilderProcessor.py:345-359 | the histogram totals the count; a range exists exactly after a numeric value and stays ordered |
| `FieldProfile.ClassifyKeepsCategories` | ansible-configurator/NiFi_Processors/vendored/rule-builder/RuleBuilderProcessor.py:360-362 | categories stay distinct, non-numeric, within the cap |
| `FieldProfile.AppendCategoryValid` | ansible-configurator/NiFi_Processors/vendored/rule-builder/RuleBuilderProcessor.py:361-362 | a new non-numeric category below the cap keeps the category invariant |
| `FieldProfile.ObserveKeepsValid` | ansible-configurator/NiFi_Processors/vendored/rule-builder/RuleBuilderProcessor.py:336-367 | one observation keeps the entry's invariant (samples within the cap and empty when derivation is off), only widens the range, and records exactly one more value or missing value |
| `FieldProfile.ObserveFieldKeepsValid` | ansible-configurator/NiFi_Processors/vendored/rule-builder/RuleBuilderProcessor.py:334-367 | one pair keeps every entry valid and only widens ranges |
| `FieldProfile.ObserveFieldsKeepValid` | ansible-configurator/NiFi_Processors/vendored/rule-builder/RuleBuilderProcessor.py:334-367 | a record keeps the profile valid and only widens ranges |
| `FieldProfile.CollectValid` | ansible-configurator/NiFi_Processors/vendored/rule-builder/RuleBuilderProcessor.py:319-369 | every profile _collect_stats returns satisfies the invariant |
| `FieldProfile.ObserveFieldsCounts` | ansible-configurator/NiFi_Processors/vendored/rule-builder/RuleBuilderProcessor.py:334-345 | a record raises count + missing of each field by the pairs carrying it |
| `FieldProfile.CollectCounts` | ansible-configurator/NiFi_Processors/vendored/rule-builder/RuleBuilderProcessor.py:333-345 | count + missing is the number of occurrences of the field; a field has an entry exactly when it occurs |
| `FieldProfile.ObserveWidens` | ansible-configurator/NiFi_Processors/vendored/rule-builder/RuleBuilderProcessor.py:348-359 | an observation never narrows the range |
| `FieldProfile.ObserveFieldWidens` | ansible-configurator/NiFi_Processors/vendored/rule-builder/RuleBuilderProcessor.py:334-359 | one pair never narrows any field's range |
| `FieldProfile.ProfileWidensTrans` | ansible-configurator/NiFi_Processors/vendored/rule-builder/RuleBuilderProcessor.py:348-359 | widening composes |
| `FieldProfile.ObserveFieldsPrefixOk` | ansible-configurator/NiFi_Processors/vendored/rule-builder/RuleBuilderProcessor.py:334 | when a record's pairs all fold, so does each prefix |
| `FieldProfile.ObserveFieldsPrefixWidens` | ansible-configurator/NiFi_Processors/vendored/rule-builder/RuleBuilderProcessor.py:334-359 | the later pairs only widen the ranges left by a prefix |
| `FieldProfile.ObserveFieldsWidens` | ansible-configurator/NiFi_Processors/vendored/rule-builder/RuleBuilderProcessor.py:334-359 | a record never narrows any range |
| `FieldProfile.CollectPrefixOk` | ansible-configurator/NiFi_Processors/vendored/rule-builder/RuleBuilderProcessor.py:333 | when all records fold, so does each prefix |
| `FieldProfile.CollectPrefixWidens` | ansible-configurator/NiFi_Processors/vendored/rule-builder/RuleBuilderProcessor.py:333-359 | the later records only widen the ranges left by a prefix |
| `FieldProfile.ObserveEncloses` | ansible-configurator/NiFi_Processors/vendored/rule-builder/RuleBuilderProcessor.py:348-359 | a numeric value lies in the range right after it is observed |
| `FieldProfile.ObserveFieldEncloses` | ansible-configurator/NiFi_Processors/vendored/rule-builder/RuleBuilderProcessor.py:335-359 | a numeric pair lies in its field's range right after it is observed |
| `FieldProfile.EnclosedAfterRecord` | ansible-configurator/NiFi_Processors/vendored/rule-builder/RuleBuilderProcessor.py:334-359 | a numeric pair lies in its field's range once its whole record is observed |
| `FieldProfile.RangeEnclosesObservations` | ansible-configurator/NiFi_Processors/vendored/rule-builder/RuleBuilderProcessor.py:348-359 | numeric_min <= every INTEGER/FLOAT value of the field in the sample <= numeric_max |
| `RuleSynthesis.RuleJson` | ansible-configurator/NiFi_Processors/vendored/rule-builder/RuleBuilderProcessor.py:452-457 | a built rule is a mapping of "name", "feature" and "specs" |
| `RuleSynthesis.DomainRules` | ansible-configurator/NiFi_Processors/vendored/rule-builder/RuleBuilderProcessor.py:470-481 | a domain rule exactly for INTEGER/FLOAT with both bounds |
| `RuleSynthesis.CategoricalRules` | ansible-configurator/NiFi_Processors/vendored/rule-builder/RuleBuilderProcessor.py:484-491 | a categorical rule exactly for some categories within the cap |
| `RuleSynthesis.RegexRules` | ansible-configurator/NiFi_Processors/vendored/rule-builder/RuleBuilderProcessor.py:494-503 | a regex rule exactly when derivation is on and a pattern is derived |
| `RuleSynthesis.FieldRules` | ansible-configurator/NiFi_Processors/vendored/rule-builder/RuleBuilderProcessor.py:445-503 | none for a field never seen; otherwise exists(missing == 0), then the datatype rule, then the optional ones |
| `RuleSynthesis.FieldRulesNamed` | ansible-configurator/NiFi_Processors/vendored/rule-builder/RuleBuilderProcessor.py:452-503 | every rule of a field is about that field and has one of the five built names |
| `RuleSynthesis.RulesFor` | ansible-configurator/NiFi_Processors/vendored/rule-builder/RuleBuilderProcessor.py:444-505 | the rules of all fields in first-seen order, each about a seen field with a built name |
| `RuleSynthesis.RulesForStep` | ansible-configurator/NiFi_Processors/vendored/rule-builder/RuleBuilderProcessor.py:445 | rules of earlier fields followed by the last field's are all about fields of the order |
| `RuleSynthesis.AppendFieldRules` | ansible-configurator/NiFi_Processors/vendored/rule-builder/RuleBuilderProcessor.py:446-503 | the loop body appends exactly the field's rules |
| `RuleSynthesis.BuildRules` | ansible-configurator/NiFi_Processors/vendored/rule-builder/RuleBuilderProcessor.py:442-505 | the loop of _build_rules_yaml computes the rules for the fields in order |
| `RuleSynthesis.RulesJson` | ansible-configurator/NiFi_Processors/vendored/rule-builder/RuleBuilderProcessor.py:505 | one mapping per rule, in order |
| `RuleSynthesis.RulesDocument` | ansible-configurator/NiFi_Processors/vendored/rule-builder/RuleBuilderProcessor.py:505 | the document is a mapping holding the rules list under "rules" |
| `RuleSynthesis.CategoricalGuardRedundant` | ansible-configurator/NiFi_Processors/vendored/rule-builder/RuleBuilderProcessor.py:484 | as categories never exceed the cap, a categorical rule is written exactly when there is a category |
| `RuleSynthesis.DomainBoundsOrdered` | ansible-configurator/NiFi_Processors/vendored/rule-builder/RuleBuilderProcessor.py:479 | a written domain rule has min <= max |
| `RuleSynthesis.NumericTypeHasRange` | ansible-configurator/NiFi_Processors/vendored/rule-builder/RuleBuilderProcessor.py:470-474 | a numeric chosen type always comes with a recorded range, so the domain rule follows |
| `RuleSynthesis.Lift` | ansible-configurator/NiFi_Processors/vendored/rule-builder/RuleBuilderProcessor.py:285 | dict(attrs): the same keys and values |
| `RuleSynthesis.Infer` | ansible-configurator/NiFi_Processors/vendored/rule-builder/RuleBuilderProcessor.py:280-282 | inference succeeds only when parsing and collection succeed |
| `RuleSynthesis.RuleBuilder.constructor` | ansible-configurator/NiFi_Processors/vendored/rule-builder/RuleBuilderProcessor.py:222-245 | the settings as given, an empty format meaning AUTO, an empty cache |
| `RuleSynthesis.RuleBuilder.FingerprintOf` | ansible-configurator/NiFi_Processors/vendored/rule-builder/RuleBuilderProcessor.py:267-273 | a non-empty fingerprint attribute wins, else the handler's fingerprint |
| `RuleSynthesis.RuleBuilder.NewAttributes` | ansible-configurator/NiFi_Processors/vendored/rule-builder/RuleBuilderProcessor.py:285-290 | the incoming attributes plus the five written ones; the format and fingerprint attributes carry what was used |
| `RuleSynthesis.RuleBuilder.Transform` | ansible-configurator/NiFi_Processors/vendored/rule-builder/RuleBuilderProcessor.py:259-297 | a hit returns the cached rules and leaves the cache; a miss infers, stores and returns them; a failure routes to failure and leaves the cache; an existing entry is never overwritten |
| `RulePipeline.BuiltRuleReadable` | ansible-configurator/NiFi_Processors/vendored/rule-builder/RuleBuilderProcessor.py:452-457 | every built rule has the keys the evaluator reads and a kind it evaluates |
| `RulePipeline.AllKindsKnown` | ansible-configurator/NiFi_Processors/vendored/dqa-validator/DQAValidator.py:186-197 | when every rule has a known kind, each yields a result |
| `RulePipeline.BuiltRulesLoad` | ansible-configurator/NiFi_Processors/vendored/dqa-validator/DQAValidator.py:161-164 | the builder's document passes the evaluator's constructor, and each rule yields exactly one result |
| `RulePipeline.InferredRulesLoad` | ansible-configurator/NiFi_Processors/vendored/rule-builder/RuleBuilderProcessor.py:505 | every rule set inferred from content loads in the evaluator |
| `RulePipeline.DomainCheckOnTopLevelNumber` | ansible-configurator/NiFi_Processors/vendored/dqa-validator/DQAValidator.py:243-244 | a top-level number between numeric bounds gives the single passing check |
| `RulePipeline.OnlyCheckPassed` | ansible-configurator/NiFi_Processors/vendored/dqa-validator/DQAValidator.py:253-254 | a single passing check is the check list [true] |
| `RulePipeline.DomainRuleAcceptsObservedNumbers` | ansible-configurator/NiFi_Processors/vendored/rule-builder/RuleBuilderProcessor.py:479 | the domain rule built for a field accepts every native number that field holds in the sample |
| `RulePipeline.ExistsRuleOnTopLevelField` | ansible-configurator/NiFi_Processors/vendored/dqa-validator/DQAValidator.py:434-457 | a built exists rule on a top-level field reports "field." and tests the empty key: numbers and null fail, strings pass |
| `RulePipeline.IdentifierHasNoDot` | ansible-configurator/NiFi_Processors/vendored/dqa-validator/DQAValidator.py:424-426 | an identifier splits to (identifier, "") |
| `RulePipeline.ExistsOnSingleValue` | ansible-configurator/NiFi_Processors/vendored/dqa-validator/DQAValidator.py:441-457 | a path resolving to one value gives one check, which is the result |
| `RulePipeline.EmptyKeyFound` | ansible-configurator/NiFi_Processors/vendored/dqa-validator/DQAValidator.py:443-446 | `"" in v` holds for every string and fails for numbers and null |
| `RulePipeline.CategoricalOrderIrrelevant` | ansible-configurator/NiFi_Processors/vendored/rule-builder/RuleBuilderProcessor.py:489 | the order of a categorical rule's values does not change what it accepts |
| `SchemaTrust.Setting` | ansible-configurator/NiFi_Processors/vendored/schema-validator/SchemaValidator.py:161-164 | a decimal setting gives its value, anything else the default |
| `SchemaTrust.StrictSetting` | ansible-configurator/NiFi_Processors/vendored/schema-validator/SchemaValidator.py:167 | strict exactly for the text "True" |
| `SchemaTrust.DigitRun` | ansible-configurator/NiFi_Processors/vendored/schema-validator/SchemaValidator.py:255 | the maximal run of digits ending the name |
| `SchemaTrust.DigitRunStep` | ansible-configurator/NiFi_Processors/vendored/schema-validator/SchemaValidator.py:255 | a final digit extends the digit run by one |
| `SchemaTrust.Unterminated` | ansible-configurator/NiFi_Processors/vendored/schema-validator/SchemaValidator.py:255 | `$` also matches before one final newline |
| `SchemaTrust.SubjectNumber` | ansible-configurator/NiFi_Processors/vendored/schema-validator/SchemaValidator.py:255-258 | re.search(schema_name + r"(\d+)$"): a capture is digits ending the subject right after a match of the prefix (its "." matching any character); with a delimited prefix every such match captures them |
| `SchemaTrust.MatchesAgree` | ansible-configurator/NiFi_Processors/vendored/schema-validator/SchemaValidator.py:255 | two matches of a delimited prefix before a final digit run start at the same place |
| `SchemaTrust.MatchingSubject` | ansible-configurator/NiFi_Processors/vendored/schema-validator/SchemaValidator.py:255-258 | a subject made of a prefix match and digits captures those digits |
| `SchemaTrust.WildcardPosition` | ansible-configurator/NiFi_Processors/vendored/schema-validator/SchemaValidator.py:255 | a "." in the prefix matches any character but a newline |
| `SchemaTrust.DottedTopicMatchesOtherSubjects` | ansible-configurator/NiFi_Processors/vendored/schema-validator/SchemaValidator.py:255 | a topic with a "." matches subjects of another topic that differs there, so their numbers count too |
| `SchemaTrust.DigitRunAfterSeparator` | ansible-configurator/NiFi_Processors/vendored/schema-validator/SchemaValidator.py:255 | after a non-digit, the digit run is exactly the appended digits |
| `SchemaTrust.SubjectOfDigits` | ansible-configurator/NiFi_Processors/vendored/schema-validator/SchemaValidator.py:255-262 | a delimited prefix followed by digits captures the number they spell |
| `SchemaTrust.PublishedSubjectNumber` | ansible-configurator/NiFi_Processors/vendored/schema-validator/SchemaValidator.py:241 | the subject a schema is published under reads back as its identifier |
| `SchemaTrust.Captures` | ansible-configurator/NiFi_Processors/vendored/schema-validator/SchemaValidator.py:257-258 | the search result per subject, in order |
| `SchemaTrust.RunningMax` | ansible-configurator/NiFi_Processors/vendored/schema-validator/SchemaValidator.py:256-262 | the running maximum bounds every captured number |
| `SchemaTrust.RunningMaxAttained` | ansible-configurator/NiFi_Processors/vendored/schema-validator/SchemaValidator.py:256-262 | the running maximum is one of the captured numbers, or 0 when none was captured |
| `SchemaTrust.ScanStep` | ansible-configurator/NiFi_Processors/vendored/schema-validator/SchemaValidator.py:257-262 | one more subject updates the maximum and the trusted keys by that subject alone |
| `SchemaTrust.FoundKeysCover` | ansible-configurator/NiFi_Processors/vendored/schema-validator/SchemaValidator.py:259-261 | every schema under a matching subject is trusted |
| `SchemaTrust.FoundKeysSound` | ansible-configurator/NiFi_Processors/vendored/schema-validator/SchemaValidator.py:257-261 | every trusted key comes from a subject that matches the pattern |
| `SchemaTrust.FoundKeysNone` | ansible-configurator/NiFi_Processors/vendored/schema-validator/SchemaValidator.py:257-261 | no matching subject, no trusted keys |
| `SchemaTrust.ScanTrustStep` | ansible-configurator/NiFi_Processors/vendored/schema-validator/SchemaValidator.py:259-261 | one more subject adds the trust of its schemas exactly when it matches |
| `SchemaTrust.StartingTrust` | ansible-configurator/NiFi_Processors/vendored/schema-validator/SchemaValidator.py:170-178 | the registry's keys and the published subjects' keys, trusted in turn, are trusted together and bounded |
| `SchemaTrust.Trust` | ansible-configurator/NiFi_Processors/vendored/schema-validator/SchemaValidator.py:174 | dict.fromkeys(keys, min): exactly those keys, each at min |
| `SchemaTrust.TrustAppend` | ansible-configurator/NiFi_Processors/vendored/schema-validator/SchemaValidator.py:261 | trusting keys in two steps is trusting them at once |
| `SchemaTrust.TrustConcat` | ansible-configurator/NiFi_Processors/vendored/schema-validator/SchemaValidator.py:261 | trusting a concatenation unites the two trusts |
| `SchemaTrust.Counted` | ansible-configurator/NiFi_Processors/vendored/schema-validator/SchemaValidator.py:194-196 | strict mode changes nothing; otherwise the key is added if absent |
| `SchemaTrust.Cleaned` | ansible-configurator/NiFi_Processors/vendored/schema-validator/SchemaValidator.py:265-269 | exactly the entries above 2 remain |
| `SchemaTrust.CountedBounded` | ansible-configurator/NiFi_Processors/vendored/schema-validator/SchemaValidator.py:194-204 | counting and cleaning keep every count between 0 and the threshold |
| `SchemaTrust.CountedRaisesOne` | ansible-configurator/NiFi_Processors/vendored/schema-validator/SchemaValidator.py:196 | only the sighted key changes, by exactly one from 0 if absent |
| `SchemaTrust.TrustIsKept` | ansible-configurator/NiFi_Processors/vendored/schema-validator/SchemaValidator.py:191-204 | with a threshold above 2, counting another schema and cleaning never withdraw trust |
| `SchemaTrust.Validator.constructor` | ansible-configurator/NiFi_Processors/vendored/schema-validator/SchemaValidator.py:155-181 | defaults 10 and 10000, strict only for "True", registry and published schemas trusted, numbering after the highest published subject, no messages |
| `SchemaTrust.Validator.GetUpdatedInfo` | ansible-configurator/NiFi_Processors/vendored/schema-validator/SchemaValidator.py:253-263 | returns one more than the highest captured number and trusts the matching subjects' schemas |
| `SchemaTrust.Validator.Scan` | ansible-configurator/NiFi_Processors/vendored/schema-validator/SchemaValidator.py:256-262 | the subject loop computes the running maximum and the trusted keys |
| `SchemaTrust.Validator.Cleanup` | ansible-configurator/NiFi_Processors/vendored/schema-validator/SchemaValidator.py:265-269 | deletes exactly the entries seen at most twice |
| `SchemaTrust.Validator.Validate` | ansible-configurator/NiFi_Processors/vendored/schema-validator/SchemaValidator.py:183-206 | one more message; true exactly for an accepted key, changing nothing else; otherwise counted, published and numbered on reaching the threshold, cleaned at the message limit, and raising when the registry refuses |
| `SchemaTrust.RestartSkipsPublished` | ansible-configurator/NiFi_Processors/vendored/schema-validator/SchemaValidator.py:177-178 | after a restart, numbering starts above every published identifier |
| `Counters.TallyAllAppend` | quality_reporter/app/core/stats.py:92-102 | tallying two batches in turn is tallying their concatenation |
| `Counters.TallyAll` | quality_reporter/app/core/stats.py:92-102 | the keys after tallying are the old keys plus every observed key |
| `Counters.TallyAllSnoc` | quality_reporter/app/core/stats.py:95-102 | one more validation is one more tally |
| `Counters.TallyAllCounts` | quality_reporter/app/core/stats.py:99-102 | valid counts truthy results and fail the others, per key; a key appears exactly when observed |
| `Counters.TotalRemove` | quality_reporter/app/core/stats.py:128 | the total can be taken row by row |
| `Counters.TotalSet` | quality_reporter/app/core/stats.py:157-158 | replacing a row trades its old weight for the new one |
| `Counters.TallyAllTotal` | quality_reporter/app/core/stats.py:92-102 | every validation adds exactly one to the total |
| `Counters.Upsert` | quality_reporter/app/core/stats.py:126-167 | the keys of both tables; a row already in the table gets the batch's counts added, a new row is inserted with the batch's counts, and rows absent from the batch are unchanged |
| `Counters.Restrict` | quality_reporter/app/core/stats.py:146-152 | the rows whose keys are in the set |
| `Counters.UpsertOneMore` | quality_reporter/app/core/stats.py:128-143 | one more key adds its batch counts to the table's |
| `Counters.UpsertPendingStep` | quality_reporter/app/core/stats.py:154-167 | a pending key is untouched so far, and adding its row advances the upsert |
| `Counters.UpsertEverything` | quality_reporter/app/core/stats.py:128 | upserting every key is the whole upsert |
| `Counters.UpsertStep` | quality_reporter/app/core/stats.py:128-143 | upserting one row first and the rest afterwards is the same upsert |
| `Counters.UpsertTotal` | quality_reporter/app/core/stats.py:126-167 | an upsert adds the batch's total to the table's |
| `ReportStats.Iterated` | quality_reporter/app/core/stats.py:95 | iterating a list gives its items; iterating null or a number raises |
| `ReportStats.Observe` | quality_reporter/app/core/stats.py:96-102 | a validation reads exactly when type, feature and result exist and the key is hashable; truthiness of the result decides |
| `ReportStats.ObserveAll` | quality_reporter/app/core/stats.py:95-102 | one observation per validation |
| `ReportStats.ObserveAllSnoc` | quality_reporter/app/core/stats.py:95-102 | one more validation extends the observations or fails |
| `ReportStats.MessageObservations` | quality_reporter/app/core/stats.py:93-102 | one observation per validation of the message |
| `ReportStats.Observations` | quality_reporter/app/core/stats.py:92-102 | one observation per validation of the batch |
| `ReportStats.ObserveAllErrSticks` | quality_reporter/app/core/stats.py:95-108 | an unreadable validation fails its message |
| `ReportStats.ObservationsErrSticks` | quality_reporter/app/core/stats.py:91-108 | an unreadable message fails the whole batch |
| `ReportStats.Aggregate` | quality_reporter/app/core/stats.py:89-102 | counters exist exactly when every validation reads |
| `ReportStats.AggregateCounts` | quality_reporter/app/core/stats.py:89-102 | per key, valid counts the truthy results and fail the rest; the counters total the batch's validations |
| `ReportStats.RowJson` | quality_reporter/app/core/stats.py:186-195 | a report row has five columns |
| `ReportStats.RowJsonKey` | quality_reporter/app/core/stats.py:188-190 | a row carries its key's parts under validator, rule and feature |
| `ReportStats.LastOfFive` | quality_reporter/app/core/stats.py:192 | the last column is found by its own name |
| `ReportStats.RowJsonCounts` | quality_reporter/app/core/stats.py:191-192 | a row carries its counters under VALID and FAIL |
| `ReportStats.TopicStats.constructor` | quality_reporter/app/core/stats.py:25-61 | the table starts empty |
| `ReportStats.TopicStats.BatchUpdate` | quality_reporter/app/core/stats.py:79-110 | a readable batch is upserted; any unreadable message or validation leaves the table as it was |
| `ReportStats.TopicStats.AggregateBatch` | quality_reporter/app/core/stats.py:89-102 | the message loop computes the batch's counters or its failure |
| `ReportStats.TopicStats.TallyMessage` | quality_reporter/app/core/stats.py:95-102 | the validation loop tallies one message |
| `ReportStats.TopicStats.BulkUpsert` | quality_reporter/app/core/stats.py:112-174 | either dialect gives the same upsert |
| `ReportStats.TopicStats.UpsertOnConflict` | quality_reporter/app/core/stats.py:126-143 | one insert per key, adding to a row that exists, is the upsert |
| `ReportStats.TopicStats.UpsertFetched` | quality_reporter/app/core/stats.py:144-167 | fetching, adding in place and inserting the rest is the upsert |
| `ReportStats.TopicStats.GetReport` | quality_reporter/app/core/stats.py:176-195 | exactly one row per table entry, in some order |
| `ReportEntries.ReportEntry.Total` | scripts/quality_report_client.py:47-49 | valid + fail: no smaller than either count when both are non-negative |
| `ReportEntries.ReportEntry.PassRate` | scripts/quality_report_client.py:51-55 | 0 for no validations, otherwise 100·valid/total, between 0 and 100, 100 exactly without failures |
| `ReportEntries.FractionBounds` | scripts/quality_report_client.py:51-55 | the passing fraction lies in [0, 1], 1 exactly without failures and 0 exactly without passes |
| `ReportEntries.Filter` | scripts/quality_report_client.py:212 | a comprehension keeps at most its elements, each one an input element satisfying the condition |
| `ReportEntries.FilterMembers` | scripts/quality_report_client.py:230 | an element is kept exactly when it is present and satisfies the condition |
| `ReportEntries.FilterAppend` | scripts/quality_report_client.py:234 | filtering keeps the order |
| `ReportEntries.SelectKeeps` | scripts/quality_report_client.py:228-234 | an entry is reported exactly when it matches every filter given |
| `ReportEntries.Select` | scripts/quality_report_client.py:228-234 | the reported entries come from the input and match every filter given; no filter reports the input unchanged |
| `ReportEntries.SelectKeepsOrder` | scripts/quality_report_client.py:228-234 | selection keeps the order of the entries |
| `ReportEntries.TotalsAddUp` | scripts/quality_report_client.py:153-155 | valid and fail sums make up every entry's total |
| `ReportEntries.OverallRate` | scripts/quality_report_client.py:156 | 100·valid/all when there are validations, otherwise 0; between 0 and 100 |
| `ReportRows.FromDict` | scripts/quality_report_client.py:57-65 | a mapping's columns become the entry, VALID/FAIL as valid/fail; a non-mapping or missing column raises |
| `ReportRows.FromColumns` | scripts/quality_report_client.py:59-64 | a mapping with the five typed columns reads as the entry they spell |
| `ReportRows.RowColumns` | quality_reporter/app/core/stats.py:187-193 | each column of a served row is found under its name |
| `ReportRows.FromReportRow` | scripts/quality_report_client.py:57-65 | a row the reporter serves reads back as its key and counters, with total valid + fail |
| `TextLayout.Repeat` | scripts/quality_report_client.py:127 | "-" * n: n copies |
| `TextLayout.LJust` | scripts/quality_report_client.py:128 | left-justified to at least the width |
| `TextLayout.LJustKeepsText` | scripts/quality_report_client.py:137-139 | the text first, spaces after |
| `TextLayout.RJust` | scripts/quality_report_client.py:140-143 | right-justified to at least the width |
| `TextLayout.RJustKeepsText` | scripts/quality_report_client.py:140-142 | spaces first, the text at the end |
| `TextLayout.JoinLength` | scripts/quality_report_client.py:127 | a join is the pieces plus one separator between each pair |
| `TextLayout.FramedLength` | scripts/quality_report_client.py:127-128 | a framed line is the cells plus one delimiter more than cells |
| `TextLayout.SumLengthsOfWidths` | scripts/quality_report_client.py:127 | cells padded to width + 2 total the widths plus two each |
| `TextLayout.FramedWidth` | scripts/quality_report_client.py:127-147 | cells padded to their widths frame into a line whose length depends only on the widths |
| `ReportTable.MaxOf` | scripts/quality_report_client.py:117-122 | max(): no element exceeds it |
| `ReportTable.MaxOfAttained` | scripts/quality_report_client.py:117-122 | max() of a non-empty list is one of its elements |
| `ReportTable.CellLengths` | scripts/quality_report_client.py:117-122 | the rendered lengths of a column, entry by entry |
| `ReportTable.LongestCellBound` | scripts/quality_report_client.py:117-122 | no cell is longer than the longest |
| `ReportTable.LongestCellAttained` | scripts/quality_report_client.py:117-122 | some cell is the longest |
| `ReportTable.Widths` | scripts/quality_report_client.py:116-124 | seven widths, the pass-rate one 9 |
| `ReportTable.WidthAt` | scripts/quality_report_client.py:117-122 | each width is the larger of header and longest cell |
| `ReportTable.WidthsCoverHeaders` | scripts/quality_report_client.py:116-124 | each width fits its header |
| `ReportTable.WidthsCoverCells` | scripts/quality_report_client.py:117-122 | each width fits every cell of its column |
| `ReportTable.WidthsAttained` | scripts/quality_report_client.py:117-122 | each width is the header's length or some cell's |
| `ReportTable.SeparatorCells` | scripts/quality_report_client.py:127 | each dash run is two wider than its column |
| `ReportTable.HeaderCells` | scripts/quality_report_client.py:128 | header cells two wider than fitting widths |
| `ReportTable.Pad` | scripts/quality_report_client.py:137-142 | a cell is the width plus two spaces when the text fits |
| `ReportTable.PadRate` | scripts/quality_report_client.py:143 | the rate cell is the width plus two when the number fits one less |
| `ReportTable.RowCells` | scripts/quality_report_client.py:133-147 | seven cells per row |
| `ReportTable.Rows` | scripts/quality_report_client.py:132-148 | one row per entry |
| `ReportTable.RowsAt` | scripts/quality_report_client.py:132-148 | row i renders entry i |
| `ReportTable.Frame` | scripts/quality_report_client.py:130-161 | the rows plus six lines |
| `ReportTable.FrameAt` | scripts/quality_report_client.py:130-161 | separator, header and separator, the rows, a closing separator, a blank line and the summary |
| `ReportTable.FrameAligned` | scripts/quality_report_client.py:130-150 | when header and rows match the separator, every line above the summary does |
| `ReportTable.Separator` | scripts/quality_report_client.py:127 | the separator is the widths plus two each plus eight delimiters |
| `ReportTable.Row` | scripts/quality_report_client.py:133-147 | a row whose cells fit is as long as the separator |
| `ReportTable.HeaderRowLength` | scripts/quality_report_client.py:127-128 | the header row is as long as the separator |
| `ReportTable.EntryFits` | scripts/quality_report_client.py:116-122 | the widths fit every entry's cells |
| `ReportTable.TableFrame` | scripts/quality_report_client.py:127-161 | n + 6 lines: the separator three times, the header, the blank line and the summary in place |
| `ReportTable.RowFits` | scripts/quality_report_client.py:132-148 | row i renders entry i and is as long as the separator |
| `ReportTable.TableAligned` | scripts/quality_report_client.py:116-148 | when each rate renders in at most eight characters, every line above the summary has the separator's length |
| `ReportTable.FormatTable` | scripts/quality_report_client.py:107-163 | the no-data message for no entries, else the table's lines joined |
| `ReportTable.RenderRows` | scripts/quality_report_client.py:132-148 | the row loop renders the entries in order |
| `ReportSummary.ValidatorOrder` | scripts/quality_report_client.py:191-195 | the dict's keys are distinct and include every entry's validator |
| `ReportSummary.ValidatorOrderMembers` | scripts/quality_report_client.py:191-195 | every key of the dict is some entry's validator |
| `ReportSummary.DistinctCounts` | scripts/quality_report_client.py:191-195 | a distinct list holds each key at most once |
| `ReportSummary.RepeatedCounts` | scripts/quality_report_client.py:197 | a repeated element occurs at least twice |
| `ReportSummary.InsertByRate` | scripts/quality_report_client.py:215 | insertion keeps rates ascending and adds the element |
| `ReportSummary.ConsAscending` | scripts/quality_report_client.py:215 | an element no higher than the head may go first |
| `ReportSummary.ByPassRate` | scripts/quality_report_client.py:215 | sorted(key=pass_rate): ascending, a permutation, and stable: the entries of each rate keep their input order |
| `ReportSummary.WithRateSingleton` | scripts/quality_report_client.py:215 | one entry of a rate is kept by that rate, and dropped by any other |
| `ReportSummary.WithRateAppend` | scripts/quality_report_client.py:215 | the entries of a rate in a concatenation are those of each part |
| `ReportSummary.PassedOver` | scripts/quality_report_client.py:215 | passing over a lower-rated head keeps the order of each rate |
| `ReportSummary.InsertByRateStable` | scripts/quality_report_client.py:215 | inserting an entry before its first not-lower rate places it ahead of its equals only when it came first |
| `ReportSummary.ByPassRateStep` | scripts/quality_report_client.py:215 | inserting the head into the sorted tail keeps each rate's entries in input order |
| `ReportSummary.SummaryOrder` | scripts/quality_report_client.py:197 | each validator once, in strictly ascending order |
| `ReportSummary.GroupMembers` | scripts/quality_report_client.py:191-195 | a group holds exactly its validator's entries |
| `ReportSummary.FailingRulesExactly` | scripts/quality_report_client.py:212-215 | the failing rules shown are exactly the group's entries with failures, by ascending rate, equal rates in group order |
| `ReportSummary.FailingCount` | scripts/quality_report_client.py:212-215 | one failing line per failing rule |
| `ReportSummary.FailingShown` | scripts/quality_report_client.py:212-215 | each failing rule of the group is among those shown |
| `ReportSummary.FailingLines` | scripts/quality_report_client.py:216-218 | one line per failing rule, every one of them present |
| `ReportSummary.BlockHead` | scripts/quality_report_client.py:198-209 | the validator line, the rule count and the total validations, which is the sum of all valid and failed counts |
| `ReportSummary.Block` | scripts/quality_report_client.py:198-218 | seven heading lines, then the failing section when some rule fails: its title and one line per failing rule sorted by pass rate |
| `ReportSummary.BlockShowsFailing` | scripts/quality_report_client.py:210-218 | every failing rule of the group gets its line after the block's head |
| `ReportSummary.NoGroupYet` | scripts/quality_report_client.py:193 | a validator not yet seen has no entries so far |
| `ReportSummary.GroupByValidator` | scripts/quality_report_client.py:191-195 | the grouping loop builds each validator's entries, keys in first-appearance order |
| `ReportSummary.AppendBlocks` | scripts/quality_report_client.py:197-218 | the loop appends each sorted validator's block |
| `ReportSummary.FormatSummary` | scripts/quality_report_client.py:183-220 | the no-data message for no entries, else one block per validator in sorted order |
| `DatasetPublisher.DatasetMessage.ToDict` | scripts/publish_dataset.py:49-53 | exactly the keys s3_url and dataset_id, with the message's values |
| `DatasetPublisher.Take` | scripts/publish_dataset.py:74 | s[:n]: the first min(n, len) characters |
| `DatasetPublisher.LastSegment` | scripts/publish_dataset.py:67 | split("/")[-1]: the final run after the last "/" |
| `DatasetPublisher.FromUrl` | scripts/publish_dataset.py:58-75 | a given id is kept without parsing the URL; otherwise the URL is parsed, and the call fails exactly when urlparse raises, with its exception; a message keeps the URL and has a string id |
| `DatasetPublisher.JoinLast` | scripts/publish_dataset.py:67 | joining pieces is joining all but the last, the separator and the last |
| `DatasetPublisher.WholeIsFinalRun` | scripts/publish_dataset.py:67 | a string without "/" is its own last segment |
| `DatasetPublisher.TailIsFinalRun` | scripts/publish_dataset.py:67 | what follows the last "/" is the last segment |
| `DatasetPublisher.LastPieceIsFinalRun` | scripts/publish_dataset.py:67 | split's last piece is the final run |
| `DatasetPublisher.FinalRunUnique` | scripts/publish_dataset.py:67 | the final run is unique |
| `DatasetPublisher.LastIndexUnique` | scripts/publish_dataset.py:69 | the last occurrence is the one with none after it |
| `DatasetPublisher.LastSeparatorBefore` | scripts/publish_dataset.py:69 | in pre + "." + p with no "." in p, rsplit cuts after pre |
| `DatasetPublisher.BaseNameOfPath` | scripts/publish_dataset.py:66-69 | the name is the final run of the stripped path, cut before its last "." |
| `DatasetPublisher.StripExtraSlash` | scripts/publish_dataset.py:66 | one more trailing "/" strips to the same path |
| `DatasetPublisher.TrailingSlashIgnored` | scripts/publish_dataset.py:66-69 | "/data/" names the dataset as "/data" does |
| `DatasetPublisher.LastExtensionDropped` | scripts/publish_dataset.py:66-71 | dir/name.ext names the dataset name |
| `DatasetPublisher.FileNameParts` | scripts/publish_dataset.py:69 | "name.ext" cut before its last "." is name |
| `DatasetPublisher.HiddenFileFallsBack` | scripts/publish_dataset.py:65-74 | a URL whose path ends in a file named only by an extension gets "dataset-" and eight hex digits |
| `DatasetPublisher.DerivedIdNotEmpty` | scripts/publish_dataset.py:63-74 | when urlparse succeeds, the derived id is the base name, or the generated one when that is empty, so never empty |
| `DatasetPublisher.GivenIdKept` | scripts/publish_dataset.py:63-75 | any given id, even an empty one, is kept, and the URL is not parsed, so no urlparse error can arise |
| `DatasetPublisher.Records` | scripts/publish_dataset.py:118-123 | one record per message |
| `DatasetPublisher.RecordsAt` | scripts/publish_dataset.py:119-123 | record i carries message i |
| `DatasetPublisher.RecordFields` | scripts/publish_dataset.py:120-122 | a record holds the message's mapping under "value", and "key" exactly when a non-empty key is given |
| `DatasetPublisher.RecordsSnoc` | scripts/publish_dataset.py:119-123 | one more message appends its record |
| `DatasetPublisher.BuildRecords` | scripts/publish_dataset.py:118-123 | the loop builds the records in order |
| `DatasetPublisher.KafkaRestClient.constructor` | scripts/publish_dataset.py:81-92 | base URL without trailing "/", timeout kept, credentials only when both are non-empty |
| `DatasetPublisher.KafkaRestClient.Publish` | scripts/publish_dataset.py:94-125 | the URL is base + "/topics/" + topic, and the payload is {"records": [...]} in message order |
| `DatasetPublisher.ItemMessage` | scripts/publish_dataset.py:194-205 | a non-mapping item raises TypeError and a missing s3_url KeyError; a true dataset_id of any type is used as given, else a string s3_url derives the id or raises urlparse's exception, else the item raises (AttributeError for a true non-string URL, TypeError for a false one) |
| `DatasetPublisher.ItemWithUrl` | scripts/publish_dataset.py:194-198 | an item with a string URL gives it with its non-empty string id, and otherwise what from_url gives |
| `DatasetPublisher.ItemIdFallback` | scripts/publish_dataset.py:194-206 | a missing or empty dataset_id in a file falls back to from_url, including its failure; another is kept |
| `DatasetPublisher.ItemKeepsUntypedFields` | scripts/publish_dataset.py:194-199 | a true dataset_id of any type is published as it is, next to an s3_url of any type |
| `DatasetPublisher.ItemsMessages` | scripts/publish_dataset.py:191-199 | one message per item, and the list reads whenever every item reads |
| `DatasetPublisher.ItemsMessagesAt` | scripts/publish_dataset.py:192-199 | message i is item i's |
| `DatasetPublisher.ItemsStep` | scripts/publish_dataset.py:192-199 | one more item appends its message or fails with its error |
| `DatasetPublisher.StopsAtFailure` | scripts/publish_dataset.py:188-210 | the first failing item fails the whole file with its error |
| `DatasetPublisher.LoadItems` | scripts/publish_dataset.py:191-199 | the item loop computes the file's messages |
| `DatasetPublisher.LoadMessages` | scripts/publish_dataset.py:186-207 | a list gives one message per item, anything else one message |
| `DatasetPublisher.FileMessages` | scripts/publish_dataset.py:186-207 | a list gives one message per item, message i being item i's; anything else gives the one message of that item, and fails exactly when it fails |
| `DatasetPublisher.CommandMessages` | scripts/publish_dataset.py:186-216 | with a file, the file's messages, except that a KeyError becomes SystemExit and other errors propagate; otherwise SystemExit when --s3-url is missing or empty, urlparse's exception when no id is given and the URL does not parse, and else one message with that URL and the given or derived id |
| `DatasetPublisher.MissingUrlExits` | scripts/publish_dataset.py:188-210 | a file, or a list item, without s3_url makes the command exit |
| `DatasetPublisher.MalformedUrlRaises` | scripts/publish_dataset.py:188-216 | a ValueError from urlparse is not caught, on the command line or from a file |
| `DatasetPublisher.EmptyIdRoutes` | scripts/publish_dataset.py:194-216 | an empty id is kept on the command line but replaced by the derived id in a file when the URL parses |

## Left out

- Host plumbing is not modelled: NiFi property descriptors and `onScheduled` beyond the settings each class receives, FlowFile construction, logging and `print`. Nor is the schema validator's `transform`, which reads a `validatorID` field that is never set.
- Network and storage are not modelled:
  - schema-registry HTTP calls: registry answers are parameters (`registryKeys`, `subjects`, `schemasOf`, `registryAccepts`);
  - the Kafka consumer, the threaded batching loop and its clock;
  - SQLAlchemy engines, sessions, commits and rollbacks: the database dialect is a boolean, and a database error that leaves the table unchanged is not modelled;
  - the FastAPI routes, environment settings, `requests` calls, argparse, `main`, the watch loop, `format_json`, `clear_report`, `list_topics` and `get_topic_metadata`.
- Decoding and encoding are parameters:
  - YAML/JSON loading, `csv.DictReader` and `yaml.safe_dump`: the flowfile content is given with its decoded value and CSV rows;
  - the rules attribute holds the rule list, not YAML text;
  - `urlparse(url).path` is a function parameter that gives the path or the exception urlparse raises, such as its ValueError on a netloc with an unbalanced bracket; which URLs urlparse rejects is not modelled. The uuid4 hex digits are a parameter.
- Hashing is a parameter: SHA-256 fingerprints are a `string -> string` function. A schema is known only by its key, so Python's per-process `hash()` and the genson schema inference are not part of this model.
- Regular expressions are a parameter: the `re.fullmatch` engine is a function returning a match or a compile error. The builder's two patterns are stated as literal strings.
- JMESPath is modelled only for paths of dot-separated identifiers. Any other expression (projections, filters, slices, quoted names) gives an `UnsupportedPath` failure instead of a result.
- Python text and numbers are simplified:
  - `int()`, `float()` and `isdigit()` accept ASCII decimal digits only (no underscores, no `inf`/`nan`, no other Unicode digits);
  - floats are exact reals with no rounding, infinity or NaN;
  - the builder's numeric range (`num_val = float(value)` in `_collect_stats`, RuleBuilderProcessor.py:348-358) is kept exactly. In Python an int above 2^53 is rounded there, so a sampled id such as 9007199254740993 gets the range [9007199254740992.0, 9007199254740992.0] and fails its own domain rule. A native int of 2^1024 or more makes `float()` raise OverflowError, which routes the flowfile to failure; the model's `FieldProfile.Collect` succeeds on it;
  - `str()` of a float is positional (Python switches to exponent notation for very large or small values);
  - `.2f`/`.1f` formatting is a parameter.
- JsonValue.FloatRepr: states only that the text has a decimal point. It is positional with up to 17 fraction digits, while Python prints the shortest round-tripping form and switches to exponent notation for very large or small values.
- Categories are a duplicate-free list in insertion order, where Python keeps them in a set with arbitrary order. `RulePipeline.CategoricalOrderIrrelevant` shows the order does not affect evaluation.
- The `ts` timestamp of the evaluator's report is not modelled.
- SchemaTrust.Validator.constructor does not model the ValueError that `api_calls` raises when no schema is found for the given ids, nor a failed subject listing. The registry's keys arrive already fetched.
- Report-row keys (`Counters.Key`) compare as decoded JSON values, structurally. A Python dict merges keys that compare equal across types (`1`, `1.0` and `True`), so tuples of such values would share one counter there and not here. The DQA messages carry strings in these fields, where the two agree.
- ReportStats.TopicStats.BatchUpdate treats every exception of the batch alike: a missing key, a type error or an unhashable key all drop the batch.
- ReportTable.TableAligned and ReportTable.RowFits hold only when each pass rate renders in at most eight characters. The source assumes this ("100.00%") and does not enforce it.
- UnifiedDataModelEncapsulator and the MQTT test streamer are not part of this model.
- The JMESPath step applied to a list (a projection) is not modelled: such a step gives null, as for any non-object.
- ReportRows.FromDict: rejects a row whose validator, rule or feature is not a string, or whose VALID or FAIL is not an int, with a TypeError. Python's `from_dict` copies any values into the entry unchecked. The entry's fields are typed here so that totals, rates and the renderings stay total functions; the reporter's own rows always carry these types (`ReportRows.FromReportRow`).
- JsonValue.PyStr: repr() escapes of non-ASCII characters follow Python only for U+0080 to U+00FF: U+0080 to U+00A0 and U+00AD become `\xhh`, the rest of Latin-1 is kept. Above U+00FF every character is kept as it is, where Python writes its non-printable ones (such as U+2028) as `\uhhhh` or `\Uhhhhhhhh`; its printability table is not modelled.
- SchemaTrust.SubjectNumber: the topic name is compiled into the subject pattern unescaped, and the model treats only "." in it as special. Other metacharacters cannot occur in Kafka topic names, which allow only letters, digits, ".", "_" and "-". `\d` is modelled as an ASCII digit, where Python's pattern on `str` also matches other Unicode decimal digits.
