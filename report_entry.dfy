/**
 * The report client's entries: one per row the reporter serves, with its
 * total and pass rate, the report command's filters, and the sums its
 * renderings print.
 */
module ReportEntries {
  import opened Wrappers

  datatype ReportEntry = ReportEntry(validator: string, rule: string, feature: string, valid: int, fail: int)
  {
    function Total(): (t: int)
      ensures valid >= 0 && fail >= 0 ==> valid <= t && fail <= t
    {
      valid + fail
    }

    /** Percentage of passing validations; 0 for an entry with no validations. */
    function PassRate(): (r: real)
      ensures Total() == 0 ==> r == 0.0
      ensures Total() != 0 ==> r * (Total() as real) == 100.0 * (valid as real)
      ensures valid >= 0 && fail >= 0 ==> 0.0 <= r <= 100.0
      ensures valid >= 0 && fail >= 0 && Total() > 0 ==> (r == 100.0 <==> fail == 0) && (r == 0.0 <==> valid == 0)
    {
      if Total() == 0 then 0.0
      else
        var t := Total() as real;
        var q := valid as real / t;
        assert valid >= 0 && fail >= 0 && Total() > 0 ==> 0.0 <= q <= 1.0 && (q == 1.0 <==> fail == 0) && (q == 0.0 <==> valid == 0) by {
          if valid >= 0 && fail >= 0 && Total() > 0 {
            FractionBounds(valid, fail);
          }
        }
        assert q * t == valid as real;
        q * 100.0
    }
  }

  /** The passing fraction of non-negative counts lies in [0, 1], at its ends exactly for no failures or no passes. */
  lemma FractionBounds(valid: int, fail: int)
    requires valid >= 0 && fail >= 0 && valid + fail > 0
    ensures var q := valid as real / (valid + fail) as real;
            0.0 <= q <= 1.0 && (q == 1.0 <==> fail == 0) && (q == 0.0 <==> valid == 0)
  {
    var t := (valid + fail) as real;
    var q := valid as real / t;
    assert q * t == valid as real;
    if q == 1.0 {
      assert valid as real == t;
    }
  }

  // ---------------------------------------------------------------------------
  // Filtering

  /** A list comprehension with a condition: the elements satisfying `p`, in order. */
  function Filter<T>(s: seq<T>, p: T -> bool): (r: seq<T>)
    ensures |r| <= |s|
    ensures forall k :: 0 <= k < |r| ==> r[k] in s && p(r[k])
  {
    if s == [] then []
    else Filter(s[..|s| - 1], p) + (if p(s[|s| - 1]) then [s[|s| - 1]] else [])
  }

  lemma {:induction false} FilterMembers<T>(s: seq<T>, p: T -> bool, x: T)
    ensures x in Filter(s, p) <==> x in s && p(x)
  {
    if s != [] {
      FilterMembers(s[..|s| - 1], p, x);
      assert s == s[..|s| - 1] + [s[|s| - 1]];
    }
  }

  /** Filtering a concatenation filters each part: the kept elements keep their order. */
  lemma {:induction false} FilterAppend<T>(a: seq<T>, b: seq<T>, p: T -> bool)
    ensures Filter(a + b, p) == Filter(a, p) + Filter(b, p)
    decreases |b|
  {
    if b == [] {
      assert a + b == a;
    } else {
      var init := b[..|b| - 1];
      assert (a + b)[..|a + b| - 1] == a + init;
      FilterAppend(a, init, p);
    }
  }

  /** An argument given on the command line and not empty. */
  predicate Requested(arg: Option<string>) {
    arg.Some? && arg.value != ""
  }

  function ByValidator(entries: seq<ReportEntry>, validator: string): seq<ReportEntry> {
    Filter(entries, (e: ReportEntry) => e.validator == validator)
  }

  function ByRule(entries: seq<ReportEntry>, rule: string): seq<ReportEntry> {
    Filter(entries, (e: ReportEntry) => e.rule == rule)
  }

  /** The report command's entries: first by validator, then by rule, each only when asked for. */
  function Select(entries: seq<ReportEntry>, validator: Option<string>, rule: Option<string>): (r: seq<ReportEntry>)
    ensures |r| <= |entries|
    ensures forall k :: 0 <= k < |r| ==>
              && r[k] in entries
              && (Requested(validator) ==> r[k].validator == validator.value)
              && (Requested(rule) ==> r[k].rule == rule.value)
    ensures !Requested(validator) && !Requested(rule) ==> r == entries
  {
    var kept := if Requested(validator) then ByValidator(entries, validator.value) else entries;
    if Requested(rule) then ByRule(kept, rule.value) else kept
  }

  /** An entry is reported exactly when it matches every filter asked for. */
  lemma SelectKeeps(entries: seq<ReportEntry>, validator: Option<string>, rule: Option<string>, e: ReportEntry)
    ensures e in Select(entries, validator, rule) <==>
              && e in entries
              && (Requested(validator) ==> e.validator == validator.value)
              && (Requested(rule) ==> e.rule == rule.value)
  {
    var kept := if Requested(validator) then ByValidator(entries, validator.value) else entries;
    if Requested(validator) {
      FilterMembers(entries, (e: ReportEntry) => e.validator == validator.value, e);
    }
    if Requested(rule) {
      FilterMembers(kept, (e: ReportEntry) => e.rule == rule.value, e);
    }
  }

  /** Selection keeps the order of the entries: it distributes over concatenation. */
  lemma SelectKeepsOrder(a: seq<ReportEntry>, b: seq<ReportEntry>, validator: Option<string>, rule: Option<string>)
    ensures Select(a + b, validator, rule) == Select(a, validator, rule) + Select(b, validator, rule)
  {
    var ka := if Requested(validator) then ByValidator(a, validator.value) else a;
    var kb := if Requested(validator) then ByValidator(b, validator.value) else b;
    if Requested(validator) {
      FilterAppend(a, b, (e: ReportEntry) => e.validator == validator.value);
    }
    if Requested(rule) {
      FilterAppend(ka, kb, (e: ReportEntry) => e.rule == rule.value);
    }
  }

  // ---------------------------------------------------------------------------
  // Sums

  function TotalValid(entries: seq<ReportEntry>): int {
    if entries == [] then 0 else TotalValid(entries[..|entries| - 1]) + entries[|entries| - 1].valid
  }

  function TotalFail(entries: seq<ReportEntry>): int {
    if entries == [] then 0 else TotalFail(entries[..|entries| - 1]) + entries[|entries| - 1].fail
  }

  /** The sum of the entries' totals. */
  function TotalAll(entries: seq<ReportEntry>): int {
    if entries == [] then 0 else TotalAll(entries[..|entries| - 1]) + entries[|entries| - 1].Total()
  }

  /** The valid and failed sums together make up every entry's total. */
  lemma {:induction false} TotalsAddUp(entries: seq<ReportEntry>)
    ensures TotalValid(entries) + TotalFail(entries) == TotalAll(entries)
  {
    if entries != [] {
      TotalsAddUp(entries[..|entries| - 1]);
    }
  }

  /** Percentage passing over a group; 0 unless the group holds a positive total. */
  function OverallRate(totalValid: int, totalFail: int): (r: real)
    ensures totalValid >= 0 && totalFail >= 0 ==> 0.0 <= r <= 100.0
    ensures totalValid + totalFail <= 0 ==> r == 0.0
    ensures totalValid + totalFail > 0 ==> r * ((totalValid + totalFail) as real) == 100.0 * (totalValid as real)
  {
    var all := totalValid + totalFail;
    if all > 0 then ReportEntry("", "", "", totalValid, totalFail).PassRate() else 0.0
  }
}
