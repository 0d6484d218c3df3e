/**
 * format_summary: report entries grouped by validator, validators in sorted
 * order, each group's failing rules by ascending pass rate. Fixed-point
 * rendering of a percentage is a parameter (`fixed2` for two decimals,
 * `fixed1` for one).
 */
module ReportSummary {
  import opened PyText
  import opened TextLayout
  import opened ReportEntries
  import ReportTable

  /** The validators in order of first appearance, as a dict's keys are: each entry's validator, once. */
  function ValidatorOrder(entries: seq<ReportEntry>): (vs: seq<string>)
    ensures Distinct(vs)
    ensures forall i :: 0 <= i < |entries| ==> entries[i].validator in vs
  {
    if entries == [] then []
    else
      var init := entries[..|entries| - 1];
      assert forall i :: 0 <= i < |init| ==> init[i] == entries[i];
      var order := ValidatorOrder(init);
      var v := entries[|entries| - 1].validator;
      if v in order then order else order + [v]
  }

  predicate Distinct(s: seq<string>) {
    forall i, j :: 0 <= i < j < |s| ==> s[i] != s[j]
  }

  /** Only the entries' validators are listed. */
  lemma {:induction false} ValidatorOrderMembers(entries: seq<ReportEntry>)
    ensures forall v :: v in ValidatorOrder(entries) ==> exists i :: 0 <= i < |entries| && entries[i].validator == v
  {
    if entries != [] {
      var init := entries[..|entries| - 1];
      ValidatorOrderMembers(init);
      assert forall i :: 0 <= i < |init| ==> init[i] == entries[i];
    }
  }

  lemma {:induction false} DistinctCounts(s: seq<string>, x: string)
    requires Distinct(s)
    ensures multiset(s)[x] <= 1
  {
    if s != [] {
      var init := s[..|s| - 1];
      DistinctCounts(init, x);
      assert s == init + [s[|s| - 1]];
      if s[|s| - 1] == x {
        assert x !in init;
      }
    }
  }

  lemma RepeatedCounts(s: seq<string>, i: nat, j: nat)
    requires i < j < |s| && s[i] == s[j]
    ensures multiset(s)[s[i]] >= 2
  {
    assert s == s[..i] + [s[i]] + s[i + 1..j] + [s[j]] + s[j + 1..];
  }

  /** The group of one validator: its entries, in their order. */
  function Group(entries: seq<ReportEntry>, v: string): seq<ReportEntry> {
    ByValidator(entries, v)
  }

  function Failing(entries: seq<ReportEntry>): seq<ReportEntry> {
    Filter(entries, (e: ReportEntry) => e.fail > 0)
  }

  predicate RatesAscending(es: seq<ReportEntry>) {
    forall i, j :: 0 <= i < j < |es| ==> es[i].PassRate() <= es[j].PassRate()
  }

  /** x placed before the first entry whose rate is not below its own. */
  function InsertByRate(x: ReportEntry, es: seq<ReportEntry>): (r: seq<ReportEntry>)
    requires RatesAscending(es)
    ensures RatesAscending(r)
    ensures multiset(r) == multiset(es) + multiset{x}
    ensures r != [] && (r[0] == x || (es != [] && r[0] == es[0]))
  {
    if es == [] then [x]
    else if x.PassRate() <= es[0].PassRate() then
      ConsAscending(x, es);
      [x] + es
    else
      var rest := InsertByRate(x, es[1..]);
      assert es == [es[0]] + es[1..];
      assert es[0].PassRate() <= rest[0].PassRate() by {
        if rest[0] != x { assert rest[0] == es[1]; }
      }
      ConsAscending(es[0], rest);
      [es[0]] + rest
  }

  /** x may go in front of an ascending list whose head's rate is not below its own. */
  lemma ConsAscending(x: ReportEntry, es: seq<ReportEntry>)
    requires RatesAscending(es)
    requires es == [] || x.PassRate() <= es[0].PassRate()
    ensures RatesAscending([x] + es)
  {
    var r := [x] + es;
    forall i, j | 0 <= i < j < |r| ensures r[i].PassRate() <= r[j].PassRate() {
      if i == 0 {
        if j > 1 { assert r[j] == es[j - 1]; }
      } else {
        assert r[i] == es[i - 1] && r[j] == es[j - 1];
      }
    }
  }

  /** The entries of pass rate q, in their order. */
  function WithRate(es: seq<ReportEntry>, q: real): seq<ReportEntry> {
    Filter(es, (e: ReportEntry) => e.PassRate() == q)
  }

  lemma WithRateSingleton(y: ReportEntry, q: real)
    ensures WithRate([y], q) == if y.PassRate() == q then [y] else []
  {
    var p := (e: ReportEntry) => e.PassRate() == q;
    assert [y][..0] == [];
  }

  lemma WithRateAppend(a: seq<ReportEntry>, b: seq<ReportEntry>, q: real)
    ensures WithRate(a + b, q) == WithRate(a, q) + WithRate(b, q)
  {
    FilterAppend(a, b, (e: ReportEntry) => e.PassRate() == q);
  }

  /** An entry of a lower rate than x stays in front of x among any one rate's entries. */
  lemma PassedOver(x: ReportEntry, y: ReportEntry, tail: seq<ReportEntry>, rest: seq<ReportEntry>, q: real)
    requires x.PassRate() > y.PassRate()
    requires WithRate(rest, q) == (if x.PassRate() == q then [x] else []) + WithRate(tail, q)
    ensures WithRate([y] + rest, q) == (if x.PassRate() == q then [x] else []) + WithRate([y] + tail, q)
  {
    WithRateAppend([y], rest, q);
    WithRateAppend([y], tail, q);
    WithRateSingleton(y, q);
  }

  /**
   * Inserting x goes before every entry of its own rate: among the
   * entries of any one rate, x comes first and the others keep their order.
   */
  lemma {:induction false} InsertByRateStable(x: ReportEntry, es: seq<ReportEntry>, q: real)
    requires RatesAscending(es)
    ensures WithRate(InsertByRate(x, es), q) == (if x.PassRate() == q then [x] else []) + WithRate(es, q)
    decreases |es|
  {
    WithRateSingleton(x, q);
    if es == [] {
      assert [x] + es == [x];
    } else if x.PassRate() <= es[0].PassRate() {
      WithRateAppend([x], es, q);
    } else {
      var rest := InsertByRate(x, es[1..]);
      assert RatesAscending(es[1..]) by {
        forall i, j | 0 <= i < j < |es[1..]| ensures es[1..][i].PassRate() <= es[1..][j].PassRate() {
          assert es[1..][i] == es[i + 1] && es[1..][j] == es[j + 1];
        }
      }
      assert InsertByRate(x, es) == [es[0]] + rest;
      InsertByRateStable(x, es[1..], q);
      assert es == [es[0]] + es[1..];
      PassedOver(x, es[0], es[1..], rest, q);
    }
  }

  /** Inserting the head into the sorted tail keeps each rate's entries in input order. */
  lemma ByPassRateStep(x: ReportEntry, tail: seq<ReportEntry>, rest: seq<ReportEntry>)
    requires RatesAscending(rest)
    requires forall q :: WithRate(rest, q) == WithRate(tail, q)
    ensures forall q :: WithRate(InsertByRate(x, rest), q) == WithRate([x] + tail, q)
  {
    forall q ensures WithRate(InsertByRate(x, rest), q) == WithRate([x] + tail, q) {
      InsertByRateStable(x, rest, q);
      WithRateAppend([x], tail, q);
      WithRateSingleton(x, q);
    }
  }

  /** sorted(es, key=pass_rate): ascending, a permutation, equal rates in input order. */
  function ByPassRate(es: seq<ReportEntry>): (r: seq<ReportEntry>)
    ensures RatesAscending(r)
    ensures multiset(r) == multiset(es)
    ensures forall q :: WithRate(r, q) == WithRate(es, q)
  {
    if es == [] then []
    else
      assert es == [es[0]] + es[1..];
      var rest := ByPassRate(es[1..]);
      ByPassRateStep(es[0], es[1..], rest);
      InsertByRate(es[0], rest)
  }

  const Rule60 := Repeat('=', 60)

  function FailingLine(e: ReportEntry, fixed1: real -> string): string {
    "    - " + e.rule + " on '" + e.feature + "': " + IntToString(e.fail) + " failures (" + fixed1(e.PassRate()) + "% pass)"
  }

  /** One line per failing rule, in the order given. */
  function FailingLines(es: seq<ReportEntry>, fixed1: real -> string): (ls: seq<string>)
    ensures |ls| == |es|
    ensures forall e :: e in es ==> FailingLine(e, fixed1) in ls
  {
    if es == [] then []
    else [FailingLine(es[0], fixed1)] + FailingLines(es[1..], fixed1)
  }

  /** Sorting keeps the number of failing rules. */
  lemma FailingCount(group: seq<ReportEntry>)
    ensures |ByPassRate(Failing(group))| == |Failing(group)|
  {
    var sorted := ByPassRate(Failing(group));
    assert |sorted| == |multiset(sorted)| == |multiset(Failing(group))| == |Failing(group)|;
  }

  /** Every failing rule of a group is among the sorted failing rules. */
  lemma FailingShown(group: seq<ReportEntry>, e: ReportEntry)
    requires e in group && e.fail > 0
    ensures e in ByPassRate(Failing(group))
  {
    FailingRulesExactly(group, e);
  }

  /** The seven lines that open a validator's block: its name, rule count and totals. */
  function BlockHead(v: string, group: seq<ReportEntry>, fixed2: real -> string): (head: seq<string>)
    ensures |head| == 7
    ensures head[1] == "Validator: " + v
    ensures head[3] == "  Rules checked: " + NatToString(|group|)
    ensures head[4] == "  Total validations: " + IntToString(TotalAll(group))
  {
    TotalsAddUp(group);
    var tv := TotalValid(group);
    var tf := TotalFail(group);
    var rate := OverallRate(tv, tf);
    [ "\n" + Rule60,
      "Validator: " + v,
      Rule60,
      "  Rules checked: " + NatToString(|group|),
      "  Total validations: " + IntToString(tv + tf),
      "  Passed: " + IntToString(tv) + " (" + fixed2(rate) + "%)",
      "  Failed: " + IntToString(tf) + " (" + fixed2(100.0 - rate) + "%)" ]
  }

  /** The lines for one validator: totals, then its failing rules by ascending pass rate. */
  function Block(v: string, group: seq<ReportEntry>, fixed2: real -> string, fixed1: real -> string): (lines: seq<string>)
    ensures |lines| == if Failing(group) == [] then 7 else 8 + |Failing(group)|
    ensures lines[..7] == BlockHead(v, group, fixed2)
    ensures Failing(group) != [] ==> lines[7..] == ["\n  Failing rules:"] + FailingLines(ByPassRate(Failing(group)), fixed1)
  {
    FailingCount(group);
    var head := BlockHead(v, group, fixed2);
    if Failing(group) == [] then head
    else
      var tail := ["\n  Failing rules:"] + FailingLines(ByPassRate(Failing(group)), fixed1);
      assert (head + tail)[7..] == tail;
      head + tail
  }

  /** Every failing rule of the group gets its line after the block's head. */
  lemma BlockShowsFailing(v: string, group: seq<ReportEntry>, fixed2: real -> string, fixed1: real -> string, e: ReportEntry)
    requires e in group && e.fail > 0
    ensures FailingLine(e, fixed1) in Block(v, group, fixed2, fixed1)[7..]
  {
    FailingShown(group, e);
    var shown := FailingLines(ByPassRate(Failing(group)), fixed1);
    assert FailingLine(e, fixed1) in shown;
    assert Failing(group) != [];
    assert Block(v, group, fixed2, fixed1)[7..] == ["\n  Failing rules:"] + shown;
  }

  function Blocks(vs: seq<string>, entries: seq<ReportEntry>, fixed2: real -> string, fixed1: real -> string): seq<string> {
    if vs == [] then []
    else Blocks(vs[..|vs| - 1], entries, fixed2, fixed1) + Block(vs[|vs| - 1], Group(entries, vs[|vs| - 1]), fixed2, fixed1)
  }

  /** The summary's lines: one block per validator, validators in sorted order. */
  function SummaryLines(entries: seq<ReportEntry>, fixed2: real -> string, fixed1: real -> string): seq<string> {
    Blocks(SortStrings(ValidatorOrder(entries)), entries, fixed2, fixed1)
  }

  /**
   * The summary lists each validator of the entries exactly once, in
   * strictly ascending order.
   */
  lemma SummaryOrder(entries: seq<ReportEntry>)
    ensures var vs := SortStrings(ValidatorOrder(entries));
            && (forall i, j :: 0 <= i < j < |vs| ==> CompareStrings(vs[i], vs[j]) < 0)
            && (forall v :: v in vs <==> exists i :: 0 <= i < |entries| && entries[i].validator == v)
  {
    var order := ValidatorOrder(entries);
    var vs := SortStrings(order);
    ValidatorOrderMembers(entries);
    forall i, j | 0 <= i < j < |vs| ensures CompareStrings(vs[i], vs[j]) < 0 {
      if vs[i] == vs[j] {
        RepeatedCounts(vs, i, j);
        DistinctCounts(order, vs[i]);
        assert false;
      }
    }
    forall v ensures v in vs <==> v in order {
      assert v in vs <==> v in multiset(vs);
      assert v in order <==> v in multiset(order);
    }
  }

  /** A validator's group holds exactly its entries. */
  lemma GroupMembers(entries: seq<ReportEntry>, v: string, e: ReportEntry)
    ensures e in Group(entries, v) <==> e in entries && e.validator == v
  {
    FilterMembers(entries, (e: ReportEntry) => e.validator == v, e);
  }

  /**
   * The failing rules shown for a group are exactly its entries with
   * failures, each as often as in the group, by ascending pass rate, and
   * rules of equal rate in the group's order.
   */
  lemma FailingRulesExactly(group: seq<ReportEntry>, e: ReportEntry)
    ensures var shown := ByPassRate(Failing(group));
            && RatesAscending(shown)
            && multiset(shown) == multiset(Failing(group))
            && (forall q :: WithRate(shown, q) == WithRate(Failing(group), q))
            && (e in shown <==> e in group && e.fail > 0)
  {
    var shown := ByPassRate(Failing(group));
    FilterMembers(group, (e: ReportEntry) => e.fail > 0, e);
    assert e in shown <==> e in multiset(shown);
    assert e in Failing(group) <==> e in multiset(Failing(group));
  }

  /** format_summary: entries grouped by validator in a dict, then one block per sorted key. */
  method FormatSummary(entries: seq<ReportEntry>, fixed2: real -> string, fixed1: real -> string) returns (text: string)
    ensures entries == [] ==> text == ReportTable.NoData
    ensures entries != [] ==> text == JoinLines(SummaryLines(entries, fixed2, fixed1))
  {
    if entries == [] {
      return ReportTable.NoData;
    }
    var groups, order := GroupByValidator(entries);
    var sorted := SortStrings(order);
    forall v | v in sorted
      ensures v in groups && groups[v] == Group(entries, v)
    {
      assert v in multiset(sorted);
    }
    var lines := AppendBlocks(sorted, groups, entries, fixed2, fixed1);
    text := JoinLines(lines);
  }

  /** The loop over the sorted validators, appending each one's block. */
  method AppendBlocks(vs: seq<string>, groups: map<string, seq<ReportEntry>>, entries: seq<ReportEntry>,
                      fixed2: real -> string, fixed1: real -> string) returns (lines: seq<string>)
    requires forall v :: v in vs ==> v in groups && groups[v] == Group(entries, v)
    ensures lines == Blocks(vs, entries, fixed2, fixed1)
  {
    lines := [];
    var k := 0;
    while k < |vs|
      invariant 0 <= k <= |vs|
      invariant lines == Blocks(vs[..k], entries, fixed2, fixed1)
    {
      var v := vs[k];
      assert vs[..k + 1][..k] == vs[..k];
      lines := lines + Block(v, groups[v], fixed2, fixed1);
      k := k + 1;
    }
    assert vs[..k] == vs;
  }

  lemma NoGroupYet(entries: seq<ReportEntry>, v: string)
    requires v !in ValidatorOrder(entries)
    ensures Group(entries, v) == []
  {
    ValidatorOrderMembers(entries);
    var g := Group(entries, v);
    if g != [] {
      GroupMembers(entries, v, g[0]);
      assert false;
    }
  }

  /** The grouping loop: a dict from validator to its entries, keys in first-appearance order. */
  method GroupByValidator(entries: seq<ReportEntry>) returns (groups: map<string, seq<ReportEntry>>, order: seq<string>)
    ensures order == ValidatorOrder(entries)
    ensures forall v :: v in groups <==> v in order
    ensures forall v :: v in groups ==> groups[v] == Group(entries, v)
  {
    groups := map[];
    order := [];
    var i := 0;
    while i < |entries|
      invariant 0 <= i <= |entries|
      invariant order == ValidatorOrder(entries[..i])
      invariant forall v :: v in groups <==> v in order
      invariant forall v :: v in groups ==> groups[v] == Group(entries[..i], v)
    {
      var e := entries[i];
      var prefix := entries[..i + 1];
      assert prefix[..i] == entries[..i];
      assert prefix[i] == e;
      if e.validator !in groups {
        NoGroupYet(entries[..i], e.validator);
        groups := groups[e.validator := []];
        order := order + [e.validator];
      }
      groups := groups[e.validator := groups[e.validator] + [e]];
      forall v | v in groups
        ensures groups[v] == Group(prefix, v)
      {
        assert Group(prefix, v) == Group(entries[..i], v) + (if e.validator == v then [e] else []);
      }
      i := i + 1;
    }
    assert entries[..i] == entries;
  }
}
