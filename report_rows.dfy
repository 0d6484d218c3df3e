/**
 * Reading the rows the reporter serves into the report client's entries.
 */
module ReportRows {
  import opened Wrappers
  import opened JsonValue
  import opened PathResolver
  import opened ReportEntries
  import DQA = DqaValidator
  import ReportStats
  import Counters

  /**
   * An entry from one API row: a non-mapping raises TypeError and a missing
   * column KeyError, checked in the order the columns are read.
   */
  function FromDict(data: Json): (r: Result<ReportEntry, Failure>)
    ensures !data.Obj? ==> r == Err(Raised("TypeError"))
    ensures data.Obj? && "validator" !in Keys(data.fields) ==> r == Err(Raised("KeyError"))
    ensures r.Ok? ==> data.Obj?
                      && Lookup(data.fields, "validator") == Some(Str(r.value.validator))
                      && Lookup(data.fields, "rule") == Some(Str(r.value.rule))
                      && Lookup(data.fields, "feature") == Some(Str(r.value.feature))
                      && Lookup(data.fields, "VALID") == Some(Int(r.value.valid))
                      && Lookup(data.fields, "FAIL") == Some(Int(r.value.fail))
  {
    var validator :- DQA.Subscript(data, "validator");
    var rule :- DQA.Subscript(data, "rule");
    var feature :- DQA.Subscript(data, "feature");
    var valid :- DQA.Subscript(data, "VALID");
    var fail :- DQA.Subscript(data, "FAIL");
    if validator.Str? && rule.Str? && feature.Str? && valid.Int? && fail.Int? then
      Ok(ReportEntry(validator.s, rule.s, feature.s, valid.i, fail.i))
    else
      Err(Raised("TypeError"))
  }

  /** A row the reporter serves reads back as the entry of its key and counters. */
  lemma FromReportRow(k: Counters.Key, c: Counters.Counts)
    requires k.0.Str? && k.1.Str? && k.2.Str?
    ensures FromDict(ReportStats.RowJson(k, c)) == Ok(ReportEntry(k.0.s, k.1.s, k.2.s, c.valid, c.fail))
    ensures FromDict(ReportStats.RowJson(k, c)).value.Total() == Counters.Weight(c)
  {
    RowColumns(k, c);
    FromColumns(ReportStats.RowJson(k, c), k.0.s, k.1.s, k.2.s, c.valid, c.fail);
  }

  /** A mapping holding the five columns with the right types reads as the entry they spell. */
  lemma FromColumns(data: Json, validator: string, rule: string, feature: string, valid: int, fail: int)
    requires DQA.Subscript(data, "validator") == Ok(Str(validator))
    requires DQA.Subscript(data, "rule") == Ok(Str(rule))
    requires DQA.Subscript(data, "feature") == Ok(Str(feature))
    requires DQA.Subscript(data, "VALID") == Ok(Int(valid))
    requires DQA.Subscript(data, "FAIL") == Ok(Int(fail))
    ensures FromDict(data) == Ok(ReportEntry(validator, rule, feature, valid, fail))
  {
  }

  /** Each column of a served row is found under its name. */
  lemma RowColumns(k: Counters.Key, c: Counters.Counts)
    ensures var row := ReportStats.RowJson(k, c);
            && DQA.Subscript(row, "validator") == Ok(k.0)
            && DQA.Subscript(row, "rule") == Ok(k.1)
            && DQA.Subscript(row, "feature") == Ok(k.2)
            && DQA.Subscript(row, "VALID") == Ok(Int(c.valid))
            && DQA.Subscript(row, "FAIL") == Ok(Int(c.fail))
  {
    ReportStats.RowJsonKey(k, c);
    ReportStats.RowJsonCounts(k, c);
  }
}
