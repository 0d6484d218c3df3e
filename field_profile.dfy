/**
 * The per-field statistics the rule builder gathers over the sampled
 * records: how often a field holds a value and how often it is missing,
 * a histogram of inferred types, the numeric range, a bounded set of
 * categories and a bounded list of samples for regex derivation.
 */
module FieldProfile {
  import opened Wrappers
  import opened PyText
  import opened JsonValue
  import opened PathResolver
  import opened RuleInference

  /** The statistics of one field. */
  datatype FieldStats = FieldStats(
    count: nat,
    missing: nat,
    typeCounts: TypeCounts,
    categories: seq<Json>,
    numericMin: Option<real>,
    numericMax: Option<real>,
    samples: seq<Json>)

  /** The entry a field gets the first time it is seen. */
  const EmptyStats := FieldStats(0, 0, [], [], None, None, [])

  /** The statistics of every field, with the fields in first-seen order. */
  datatype Profile = Profile(order: seq<string>, stats: map<string, FieldStats>)

  const EmptyProfile := Profile([], map[])

  // ---------------------------------------------------------------------------
  // One observation

  /** Sum of the counts in a type histogram. */
  function Total(tc: TypeCounts): nat {
    if tc == [] then 0 else Total(tc[..|tc| - 1]) + tc[|tc| - 1].1
  }

  /** Each inferred type has at most one entry. */
  predicate DistinctTypes(tc: TypeCounts) {
    forall p, q :: 0 <= p < q < |tc| ==> tc[p].0 != tc[q].0
  }

  /** Every entry of a histogram counts at least one value. */
  predicate PositiveCounts(tc: TypeCounts) {
    forall k :: 0 <= k < |tc| ==> tc[k].1 >= 1
  }

  /** The count of one type in a histogram, 0 when absent. */
  function CountOf(tc: TypeCounts, t: InferredType): nat {
    if tc == [] then 0
    else CountOf(tc[..|tc| - 1], t) + (if tc[|tc| - 1].0 == t then tc[|tc| - 1].1 else 0)
  }

  /** Whether the histogram has an entry for t. */
  predicate HasType(tc: TypeCounts, t: InferredType) {
    exists k :: 0 <= k < |tc| && tc[k].0 == t
  }

  /**
   * Counter[t] += 1: raise the entry for t, or add one at the end, as a
   * dict keeps its keys in insertion order.
   */
  function Bump(tc: TypeCounts, t: InferredType): (r: TypeCounts)
    ensures Total(r) == Total(tc) + 1
    ensures forall u :: CountOf(r, u) == CountOf(tc, u) + (if u == t then 1 else 0)
    ensures |r| == (if HasType(tc, t) then |tc| else |tc| + 1)
    ensures forall k :: 0 <= k < |tc| ==> r[k].0 == tc[k].0 && r[k].1 >= tc[k].1
    ensures !HasType(tc, t) ==> r[|tc|] == (t, 1)
  {
    if HasType(tc, t) then Raise(tc, t)
    else
      var r := tc + [(t, 1)];
      assert r[..|r| - 1] == tc;
      r
  }

  /** The entry for t raised by one (the last such entry, were there several). */
  function Raise(tc: TypeCounts, t: InferredType): (r: TypeCounts)
    requires HasType(tc, t)
    ensures |r| == |tc|
    ensures forall k :: 0 <= k < |tc| ==> r[k].0 == tc[k].0 && r[k].1 >= tc[k].1
    ensures Total(r) == Total(tc) + 1
    ensures forall u :: CountOf(r, u) == CountOf(tc, u) + (if u == t then 1 else 0)
  {
    var init := tc[..|tc| - 1];
    var last := tc[|tc| - 1];
    if last.0 == t then
      var r := init + [(t, last.1 + 1)];
      assert r[..|r| - 1] == init;
      r
    else
      assert HasType(init, t) by {
        var k :| 0 <= k < |tc| && tc[k].0 == t;
        assert init[k] == tc[k];
      }
      var r := Raise(init, t) + [last];
      assert r[..|r| - 1] == Raise(init, t);
      r
  }

  /** Bumping keeps one entry per type and every entry positive. */
  lemma BumpKeepsShape(tc: TypeCounts, t: InferredType)
    ensures DistinctTypes(tc) ==> DistinctTypes(Bump(tc, t))
    ensures PositiveCounts(tc) ==> PositiveCounts(Bump(tc, t))
  {
    var r := Bump(tc, t);
    if DistinctTypes(tc) {
      forall p, q | 0 <= p < q < |r| ensures r[p].0 != r[q].0 {
        if q == |tc| {
          assert r[p].0 == tc[p].0;
        }
      }
    }
  }

  /** The value an observation records, None when the value counts as missing (None or a blank string). */
  function Normalize(v: Json): (r: Option<Json>)
    ensures v.Null? ==> r.None?
    ensures v.Str? ==> (r.None? <==> Strip(v.s) == "")
    ensures v.Str? && r.Some? ==> r.value == Str(Strip(v.s))
    ensures !v.Null? && !v.Str? ==> r == Some(v)
  {
    match v
    case Null => None
    case Str(s) => if Strip(s) == "" then None else Some(Str(Strip(s)))
    case _ => Some(v)
  }

  predicate IsNumeric(t: InferredType) {
    t == IntType || t == FloatType
  }

  function MinWith(m: Option<real>, x: real): (r: real)
    ensures r <= x && (m.Some? ==> r <= m.value)
    ensures r == x || (m.Some? && r == m.value)
  {
    if m.Some? && m.value <= x then m.value else x
  }

  function MaxWith(m: Option<real>, x: real): (r: real)
    ensures r >= x && (m.Some? ==> r >= m.value)
    ensures r == x || (m.Some? && r == m.value)
  {
    if m.Some? && m.value >= x then m.value else x
  }

  /**
   * set.add for the categories: nothing changes for a value already
   * present, an unhashable list or mapping raises TypeError.
   */
  function AddCategory(cats: seq<Json>, x: Json): (r: Result<seq<Json>, Failure>)
    ensures r.Err? <==> x.Arr? || x.Obj?
    ensures r.Ok? && AnyEq(x, cats) ==> r.value == cats
    ensures r.Ok? && !AnyEq(x, cats) ==> r.value == cats + [x]
  {
    if x.Arr? || x.Obj? then Err(Raised("TypeError"))
    else if AnyEq(x, cats) then Ok(cats)
    else Ok(cats + [x])
  }

  /** The statistics after the type histogram, range and categories saw the value x. */
  function Classify(st: FieldStats, x: Json, maxCategories: nat): (r: Result<FieldStats, Failure>)
    ensures r.Err? <==> !IsNumeric(InferType(x)) && |st.categories| < maxCategories && (x.Arr? || x.Obj?)
    ensures r.Ok? ==>
              && r.value.count == st.count + 1 && r.value.missing == st.missing
              && r.value.typeCounts == Bump(st.typeCounts, InferType(x))
              && r.value.samples == st.samples
    ensures r.Ok? && IsNumeric(InferType(x)) ==>
              && r.value.numericMin == Some(MinWith(st.numericMin, NumericValue(x)))
              && r.value.numericMax == Some(MaxWith(st.numericMax, NumericValue(x)))
              && r.value.categories == st.categories
    ensures r.Ok? && !IsNumeric(InferType(x)) ==>
              && r.value.numericMin == st.numericMin && r.value.numericMax == st.numericMax
              && r.value.categories ==
                   (if |st.categories| < maxCategories && !AnyEq(x, st.categories) then st.categories + [x]
                    else st.categories)
  {
    var t := InferType(x);
    var counted := st.(count := st.count + 1, typeCounts := Bump(st.typeCounts, t));
    if IsNumeric(t) then
      var n := NumericValue(x);
      Ok(counted.(numericMin := Some(MinWith(st.numericMin, n)), numericMax := Some(MaxWith(st.numericMax, n))))
    else if |st.categories| < maxCategories then
      match AddCategory(st.categories, x)
      case Ok(cats) => Ok(counted.(categories := cats))
      case Err(e) => Err(e)
    else Ok(counted)
  }

  /**
   * One value of one field: a missing value is only counted as missing;
   * any other is counted, typed, added to the range (numbers) or to the
   * categories while there is room (the rest), and kept as a sample while
   * regex derivation is on and there is room.
   */
  function Observe(st: FieldStats, v: Json, maxCategories: nat, deriveRegex: bool): (r: Result<FieldStats, Failure>)
    ensures Normalize(v).None? ==> r == Ok(st.(missing := st.missing + 1))
    ensures Normalize(v).Some? ==>
              var x := Normalize(v).value;
              var c := Classify(st, x, maxCategories);
              && (r.Err? <==> c.Err?)
              && (r.Ok? ==> r.value == c.value.(samples :=
                    if deriveRegex && |st.samples| < maxCategories then st.samples + [x] else st.samples))
  {
    match Normalize(v)
    case None => Ok(st.(missing := st.missing + 1))
    case Some(x) =>
      match Classify(st, x, maxCategories)
      case Err(e) => Err(e)
      case Ok(c) =>
        Ok(if deriveRegex && |c.samples| < maxCategories then c.(samples := c.samples + [x]) else c)
  }

  // ---------------------------------------------------------------------------
  // The fold over the records

  /** field_stats[field]: the entry of a field, created empty on first access. */
  function Entry(p: Profile, field: string): FieldStats {
    if field in p.stats then p.stats[field] else EmptyStats
  }

  /** One (field, value) pair of a record. */
  function ObserveField(p: Profile, field: string, v: Json, maxCategories: nat, deriveRegex: bool): (r: Result<Profile, Failure>)
    ensures r.Ok? ==> r.value.order == (if field in p.stats then p.order else p.order + [field])
    ensures r.Ok? ==> r.value.stats.Keys == p.stats.Keys + {field}
  {
    match Observe(Entry(p, field), v, maxCategories, deriveRegex)
    case Err(e) => Err(e)
    case Ok(st) =>
      Ok(Profile(if field in p.stats then p.order else p.order + [field], p.stats[field := st]))
  }

  /** The pairs of one record, in order. */
  function ObserveFields(p: Profile, fs: seq<(string, Json)>, maxCategories: nat, deriveRegex: bool): (r: Result<Profile, Failure>)
    decreases |fs|
  {
    if fs == [] then Ok(p)
    else
      match ObserveFields(p, fs[..|fs| - 1], maxCategories, deriveRegex)
      case Err(e) => Err(e)
      case Ok(q) => ObserveField(q, fs[|fs| - 1].0, fs[|fs| - 1].1, maxCategories, deriveRegex)
  }

  /** One record: a record that is not a mapping has no items() (AttributeError). */
  function ObserveRecord(p: Profile, rec: Json, maxCategories: nat, deriveRegex: bool): (r: Result<Profile, Failure>)
    ensures !rec.Obj? ==> r == Err(Raised("AttributeError"))
  {
    if rec.Obj? then ObserveFields(p, rec.fields, maxCategories, deriveRegex)
    else Err(Raised("AttributeError"))
  }

  /** _collect_stats as a fold over the records. */
  function Collect(records: seq<Json>, maxCategories: nat, deriveRegex: bool): (r: Result<Profile, Failure>)
    ensures r.Ok? ==> forall i :: 0 <= i < |records| ==> records[i].Obj?
    decreases |records|
  {
    if records == [] then Ok(EmptyProfile)
    else
      match Collect(records[..|records| - 1], maxCategories, deriveRegex)
      case Err(e) => Err(e)
      case Ok(p) => ObserveRecord(p, records[|records| - 1], maxCategories, deriveRegex)
  }

  lemma {:induction false} ObserveFieldsErrSticks(p: Profile, fs: seq<(string, Json)>, j: nat, maxCategories: nat, deriveRegex: bool)
    requires j <= |fs| && ObserveFields(p, fs[..j], maxCategories, deriveRegex).Err?
    ensures ObserveFields(p, fs, maxCategories, deriveRegex) == ObserveFields(p, fs[..j], maxCategories, deriveRegex)
    decreases |fs| - j
  {
    if j < |fs| {
      assert fs[..j + 1][..j] == fs[..j];
      ObserveFieldsErrSticks(p, fs, j + 1, maxCategories, deriveRegex);
    } else {
      assert fs[..j] == fs;
    }
  }

  lemma {:induction false} CollectErrSticks(records: seq<Json>, i: nat, maxCategories: nat, deriveRegex: bool)
    requires i <= |records| && Collect(records[..i], maxCategories, deriveRegex).Err?
    ensures Collect(records, maxCategories, deriveRegex) == Collect(records[..i], maxCategories, deriveRegex)
    decreases |records| - i
  {
    if i < |records| {
      assert records[..i + 1][..i] == records[..i];
      CollectErrSticks(records, i + 1, maxCategories, deriveRegex);
    } else {
      assert records[..i] == records;
    }
  }

  /**
   * The body of the outer loop of _collect_stats: for each pair of one
   * record, update the field's entry (creating it on first sight); the
   * first unhashable category aborts.
   */
  method ObserveRecordFields(order0: seq<string>, stats0: map<string, FieldStats>, fields: seq<(string, Json)>,
                             maxCategories: nat, deriveRegex: bool)
    returns (r: Result<Profile, Failure>)
    ensures r == ObserveFields(Profile(order0, stats0), fields, maxCategories, deriveRegex)
  {
    var order, stats := order0, stats0;
    var j := 0;
    while j < |fields|
      invariant j <= |fields|
      invariant ObserveFields(Profile(order0, stats0), fields[..j], maxCategories, deriveRegex) == Ok(Profile(order, stats))
    {
      assert fields[..j + 1][..j] == fields[..j];
      var field := fields[j].0;
      var entry := if field in stats then stats[field] else EmptyStats;
      var observed := Observe(entry, fields[j].1, maxCategories, deriveRegex);
      if observed.Err? {
        ObserveFieldsErrSticks(Profile(order0, stats0), fields, j + 1, maxCategories, deriveRegex);
        return Err(observed.error);
      }
      if field !in stats {
        order := order + [field];
      }
      stats := stats[field := observed.value];
      j := j + 1;
    }
    assert fields[..j] == fields;
    return Ok(Profile(order, stats));
  }

  /** One more record: the fold observes it on top of the earlier records' profile. */
  lemma CollectSnoc(records: seq<Json>, i: nat, p: Profile, maxCategories: nat, deriveRegex: bool)
    requires i < |records| && Collect(records[..i], maxCategories, deriveRegex) == Ok(p)
    ensures Collect(records[..i + 1], maxCategories, deriveRegex) == ObserveRecord(p, records[i], maxCategories, deriveRegex)
  {
    assert records[..i + 1][..i] == records[..i] && records[..i + 1][i] == records[i];
  }

  /**
   * _collect_stats: every record in turn; the first record that is not a
   * mapping, or the first failing pair, aborts.
   */
  method CollectStats(records: seq<Json>, maxCategories: nat, deriveRegex: bool) returns (r: Result<Profile, Failure>)
    ensures r == Collect(records, maxCategories, deriveRegex)
  {
    var profile := EmptyProfile;
    var i := 0;
    while i < |records|
      invariant i <= |records|
      invariant Collect(records[..i], maxCategories, deriveRegex) == Ok(profile)
    {
      var rec := records[i];
      CollectSnoc(records, i, profile, maxCategories, deriveRegex);
      if !rec.Obj? {
        CollectErrSticks(records, i + 1, maxCategories, deriveRegex);
        return Err(Raised("AttributeError"));
      }
      var next := ObserveRecordFields(profile.order, profile.stats, rec.fields, maxCategories, deriveRegex);
      if next.Err? {
        CollectErrSticks(records, i + 1, maxCategories, deriveRegex);
        return next;
      }
      profile := next.value;
      i := i + 1;
    }
    assert records[..i] == records;
    return Ok(profile);
  }

  // ---------------------------------------------------------------------------
  // What the statistics keep

  /**
   * The invariant of one field's entry: the histogram counts every
   * recorded value once per type, a range exists exactly when a numeric
   * value was seen and is ordered, categories are distinct booleans or
   * non-blank strings and never exceed the cap, and samples stay within
   * the cap and are only kept when regex derivation is on.
   */
  ghost predicate StatsValid(st: FieldStats, maxCategories: nat, deriveRegex: bool) {
    && HistogramValid(st)
    && CategoriesValid(st.categories, maxCategories)
    && |st.samples| <= maxCategories
    && (!deriveRegex ==> st.samples == [])
  }

  ghost predicate HistogramValid(st: FieldStats) {
    && Total(st.typeCounts) == st.count
    && DistinctTypes(st.typeCounts)
    && PositiveCounts(st.typeCounts)
    && (st.numericMin.Some? <==> CountOf(st.typeCounts, IntType) + CountOf(st.typeCounts, FloatType) > 0)
    && st.numericMax.Some? == st.numericMin.Some?
    && (st.numericMin.Some? ==> st.numericMin.value <= st.numericMax.value)
  }

  ghost predicate CategoriesValid(cats: seq<Json>, maxCategories: nat) {
    && |cats| <= maxCategories
    && (forall k :: 0 <= k < |cats| ==> cats[k].Bool? || (cats[k].Str? && Strip(cats[k].s) != ""))
    && (forall k :: 0 <= k < |cats| ==> !IsNumeric(InferType(cats[k])))
    && (forall p, q :: 0 <= p < q < |cats| ==> cats[p] != cats[q])
  }

  /** The range of a is contained in the range of b. */
  predicate Widens(a: FieldStats, b: FieldStats) {
    && (a.numericMin.Some? ==> b.numericMin.Some? && b.numericMin.value <= a.numericMin.value)
    && (a.numericMax.Some? ==> b.numericMax.Some? && b.numericMax.value >= a.numericMax.value)
  }

  /** x lies within the recorded range. */
  predicate Encloses(st: FieldStats, x: real) {
    st.numericMin.Some? && st.numericMax.Some? && st.numericMin.value <= x <= st.numericMax.value
  }

  /** A string that strips to something non-blank is left alone by a second strip. */
  lemma StripTwice(s: string)
    requires Strip(s) != ""
    ensures Strip(Strip(s)) == Strip(s)
  {
    StripOfUnpadded(Strip(s));
  }

  /** The histogram and range part of the invariant survives one classified value. */
  lemma ClassifyKeepsHistogram(st: FieldStats, x: Json, maxCategories: nat)
    requires HistogramValid(st)
    requires Classify(st, x, maxCategories).Ok?
    ensures HistogramValid(Classify(st, x, maxCategories).value)
    ensures Widens(st, Classify(st, x, maxCategories).value)
  {
    BumpKeepsShape(st.typeCounts, InferType(x));
  }

  /** A category that enters the set is a boolean or a non-blank string not yet in it. */
  lemma ClassifyKeepsCategories(st: FieldStats, x: Json, maxCategories: nat)
    requires CategoriesValid(st.categories, maxCategories)
    requires !x.Null? && (x.Str? ==> Strip(x.s) != "")
    requires Classify(st, x, maxCategories).Ok?
    ensures CategoriesValid(Classify(st, x, maxCategories).value.categories, maxCategories)
  {
    var t := InferType(x);
    if !IsNumeric(t) && |st.categories| < maxCategories && !AnyEq(x, st.categories) {
      assert !x.Int? && !x.Num? && !x.Arr? && !x.Obj?;
      AppendCategoryValid(st.categories, x, maxCategories);
    }
  }

  /** A boolean or non-blank string equal to no category may join the set while there is room. */
  lemma AppendCategoryValid(cats: seq<Json>, x: Json, maxCategories: nat)
    requires CategoriesValid(cats, maxCategories) && |cats| < maxCategories
    requires x.Bool? || (x.Str? && Strip(x.s) != "")
    requires !IsNumeric(InferType(x)) && !AnyEq(x, cats)
    ensures CategoriesValid(cats + [x], maxCategories)
  {
    var r := cats + [x];
    assert PyEq(x, x);
    forall k | 0 <= k < |r|
      ensures r[k].Bool? || (r[k].Str? && Strip(r[k].s) != "")
      ensures !IsNumeric(InferType(r[k]))
    {
      if k < |cats| {
        assert r[k] == cats[k];
      }
    }
    forall p, q | 0 <= p < q < |r| ensures r[p] != r[q] {
      if q == |cats| {
        assert !PyEq(x, cats[p]);
      } else {
        assert r[p] == cats[p] && r[q] == cats[q];
      }
    }
  }

  /** One observation keeps the invariant and only widens the range. */
  lemma ObserveKeepsValid(st: FieldStats, v: Json, maxCategories: nat, deriveRegex: bool)
    requires StatsValid(st, maxCategories, deriveRegex)
    requires Observe(st, v, maxCategories, deriveRegex).Ok?
    ensures StatsValid(Observe(st, v, maxCategories, deriveRegex).value, maxCategories, deriveRegex)
    ensures Widens(st, Observe(st, v, maxCategories, deriveRegex).value)
    ensures var r := Observe(st, v, maxCategories, deriveRegex).value;
            r.count + r.missing == st.count + st.missing + 1
  {
    if Normalize(v).Some? {
      var x := Normalize(v).value;
      if x.Str? {
        StripTwice(v.s);
      }
      ClassifyKeepsHistogram(st, x, maxCategories);
      ClassifyKeepsCategories(st, x, maxCategories);
    }
  }

  /** A profile is consistent: order lists each key of the map once, and every entry is valid and was seen. */
  ghost predicate ProfileValid(p: Profile, maxCategories: nat, deriveRegex: bool) {
    && (forall a, b :: 0 <= a < b < |p.order| ==> p.order[a] != p.order[b])
    && (forall f :: f in p.stats <==> f in p.order)
    && (forall f :: f in p.stats ==> StatsValid(p.stats[f], maxCategories, deriveRegex))
    && (forall f :: f in p.stats ==> p.stats[f].count + p.stats[f].missing >= 1)
  }

  /** Every range of p is contained in the matching range of q. */
  ghost predicate ProfileWidens(p: Profile, q: Profile) {
    forall f :: f in p.stats ==> f in q.stats && Widens(p.stats[f], q.stats[f])
  }

  lemma ObserveFieldKeepsValid(p: Profile, field: string, v: Json, maxCategories: nat, deriveRegex: bool)
    requires ProfileValid(p, maxCategories, deriveRegex)
    requires ObserveField(p, field, v, maxCategories, deriveRegex).Ok?
    ensures ProfileValid(ObserveField(p, field, v, maxCategories, deriveRegex).value, maxCategories, deriveRegex)
    ensures ProfileWidens(p, ObserveField(p, field, v, maxCategories, deriveRegex).value)
  {
    var entry := Entry(p, field);
    ObserveKeepsValid(entry, v, maxCategories, deriveRegex);
    var st := Observe(entry, v, maxCategories, deriveRegex).value;
    assert ObserveField(p, field, v, maxCategories, deriveRegex)
        == Ok(Profile(if field in p.stats then p.order else p.order + [field], p.stats[field := st]));
    SetEntryKeepsValid(p, field, st, maxCategories, deriveRegex);
  }

  /** Replacing one field's statistics by valid, wider ones keeps the profile valid and widens it. */
  lemma SetEntryKeepsValid(p: Profile, field: string, st: FieldStats, maxCategories: nat, deriveRegex: bool)
    requires ProfileValid(p, maxCategories, deriveRegex)
    requires StatsValid(st, maxCategories, deriveRegex) && st.count + st.missing >= 1
    requires Widens(Entry(p, field), st)
    ensures var q := Profile(if field in p.stats then p.order else p.order + [field], p.stats[field := st]);
            ProfileValid(q, maxCategories, deriveRegex) && ProfileWidens(p, q)
  {
    var q := Profile(if field in p.stats then p.order else p.order + [field], p.stats[field := st]);
    if field !in p.stats {
      assert field !in p.order;
    }
    forall f | f in q.stats
      ensures StatsValid(q.stats[f], maxCategories, deriveRegex) && q.stats[f].count + q.stats[f].missing >= 1
    {
      if f != field {
        assert q.stats[f] == p.stats[f];
      }
    }
    forall f | f in p.stats
      ensures f in q.stats && Widens(p.stats[f], q.stats[f])
    {
      if f != field {
        assert q.stats[f] == p.stats[f];
      }
    }
  }

  lemma {:induction false} ObserveFieldsKeepValid(p: Profile, fs: seq<(string, Json)>, maxCategories: nat, deriveRegex: bool)
    requires ProfileValid(p, maxCategories, deriveRegex)
    requires ObserveFields(p, fs, maxCategories, deriveRegex).Ok?
    ensures ProfileValid(ObserveFields(p, fs, maxCategories, deriveRegex).value, maxCategories, deriveRegex)
    ensures ProfileWidens(p, ObserveFields(p, fs, maxCategories, deriveRegex).value)
    decreases |fs|
  {
    if fs != [] {
      var init := fs[..|fs| - 1];
      ObserveFieldsKeepValid(p, init, maxCategories, deriveRegex);
      var q := ObserveFields(p, init, maxCategories, deriveRegex).value;
      ObserveFieldKeepsValid(q, fs[|fs| - 1].0, fs[|fs| - 1].1, maxCategories, deriveRegex);
    }
  }

  /** Every profile _collect_stats returns is consistent. */
  lemma {:induction false} CollectValid(records: seq<Json>, maxCategories: nat, deriveRegex: bool)
    requires Collect(records, maxCategories, deriveRegex).Ok?
    ensures ProfileValid(Collect(records, maxCategories, deriveRegex).value, maxCategories, deriveRegex)
    decreases |records|
  {
    if records != [] {
      var init := records[..|records| - 1];
      CollectValid(init, maxCategories, deriveRegex);
      ObserveFieldsKeepValid(Collect(init, maxCategories, deriveRegex).value, records[|records| - 1].fields,
                             maxCategories, deriveRegex);
    }
  }

  // ---------------------------------------------------------------------------
  // Counting

  /** How many pairs of one record carry the field. */
  function Occurrences(fs: seq<(string, Json)>, field: string): nat {
    if fs == [] then 0
    else Occurrences(fs[..|fs| - 1], field) + (if fs[|fs| - 1].0 == field then 1 else 0)
  }

  /** How many pairs of all the records carry the field. */
  function RecordOccurrences(records: seq<Json>, field: string): nat {
    if records == [] then 0
    else
      var last := records[|records| - 1];
      RecordOccurrences(records[..|records| - 1], field) + (if last.Obj? then Occurrences(last.fields, field) else 0)
  }

  /** total_seen of a field: the values counted plus those found missing. */
  function Seen(p: Profile, field: string): nat {
    Entry(p, field).count + Entry(p, field).missing
  }

  lemma {:induction false} ObserveFieldsCounts(p: Profile, fs: seq<(string, Json)>, maxCategories: nat, deriveRegex: bool)
    requires ObserveFields(p, fs, maxCategories, deriveRegex).Ok?
    ensures forall f :: Seen(ObserveFields(p, fs, maxCategories, deriveRegex).value, f) == Seen(p, f) + Occurrences(fs, f)
    decreases |fs|
  {
    if fs != [] {
      var init := fs[..|fs| - 1];
      ObserveFieldsCounts(p, init, maxCategories, deriveRegex);
    }
  }

  /**
   * Every pair of every record is counted exactly once for its field,
   * either as a value or as missing; a field has an entry exactly when
   * some record carries it.
   */
  lemma {:induction false} CollectCounts(records: seq<Json>, maxCategories: nat, deriveRegex: bool)
    requires Collect(records, maxCategories, deriveRegex).Ok?
    ensures var p := Collect(records, maxCategories, deriveRegex).value;
            forall f :: Seen(p, f) == RecordOccurrences(records, f)
    ensures var p := Collect(records, maxCategories, deriveRegex).value;
            forall f :: f in p.stats <==> RecordOccurrences(records, f) > 0
    decreases |records|
  {
    var p := Collect(records, maxCategories, deriveRegex).value;
    if records != [] {
      var init := records[..|records| - 1];
      CollectCounts(init, maxCategories, deriveRegex);
      ObserveFieldsCounts(Collect(init, maxCategories, deriveRegex).value, records[|records| - 1].fields,
                          maxCategories, deriveRegex);
    }
    CollectValid(records, maxCategories, deriveRegex);
  }

  // ---------------------------------------------------------------------------
  // The numeric range

  lemma ObserveWidens(st: FieldStats, v: Json, maxCategories: nat, deriveRegex: bool)
    requires Observe(st, v, maxCategories, deriveRegex).Ok?
    ensures Widens(st, Observe(st, v, maxCategories, deriveRegex).value)
    ensures var r := Observe(st, v, maxCategories, deriveRegex).value;
            r.count + r.missing == st.count + st.missing + 1
  {
    if Normalize(v).Some? {
      var x := Normalize(v).value;
      assert Classify(st, x, maxCategories).Ok?;
    }
  }

  lemma ObserveFieldWidens(p: Profile, field: string, v: Json, maxCategories: nat, deriveRegex: bool)
    requires ObserveField(p, field, v, maxCategories, deriveRegex).Ok?
    ensures ProfileWidens(p, ObserveField(p, field, v, maxCategories, deriveRegex).value)
  {
    ObserveWidens(Entry(p, field), v, maxCategories, deriveRegex);
  }

  lemma ProfileWidensTrans(a: Profile, b: Profile, c: Profile)
    requires ProfileWidens(a, b) && ProfileWidens(b, c)
    ensures ProfileWidens(a, c)
  {
  }

  lemma {:induction false} ObserveFieldsPrefixOk(p: Profile, fs: seq<(string, Json)>, m: nat, maxCategories: nat, deriveRegex: bool)
    requires m <= |fs| && ObserveFields(p, fs, maxCategories, deriveRegex).Ok?
    ensures ObserveFields(p, fs[..m], maxCategories, deriveRegex).Ok?
  {
    if ObserveFields(p, fs[..m], maxCategories, deriveRegex).Err? {
      ObserveFieldsErrSticks(p, fs, m, maxCategories, deriveRegex);
    }
  }

  lemma {:induction false} ObserveFieldsPrefixWidens(p: Profile, fs: seq<(string, Json)>, m: nat, maxCategories: nat, deriveRegex: bool)
    requires m <= |fs| && ObserveFields(p, fs, maxCategories, deriveRegex).Ok?
    ensures ObserveFields(p, fs[..m], maxCategories, deriveRegex).Ok?
    ensures ProfileWidens(ObserveFields(p, fs[..m], maxCategories, deriveRegex).value,
                          ObserveFields(p, fs, maxCategories, deriveRegex).value)
    decreases |fs| - m
  {
    ObserveFieldsPrefixOk(p, fs, m, maxCategories, deriveRegex);
    var last := ObserveFields(p, fs, maxCategories, deriveRegex).value;
    if m == |fs| {
      assert fs[..m] == fs;
    } else {
      ObserveFieldsPrefixWidens(p, fs, m + 1, maxCategories, deriveRegex);
      var q := ObserveFields(p, fs[..m], maxCategories, deriveRegex).value;
      var q1 := ObserveFields(p, fs[..m + 1], maxCategories, deriveRegex).value;
      assert fs[..m + 1][..m] == fs[..m] && fs[..m + 1][m] == fs[m];
      assert ObserveField(q, fs[m].0, fs[m].1, maxCategories, deriveRegex) == Ok(q1);
      ObserveFieldWidens(q, fs[m].0, fs[m].1, maxCategories, deriveRegex);
      ProfileWidensTrans(q, q1, last);
    }
  }

  lemma {:induction false} ObserveFieldsWidens(p: Profile, fs: seq<(string, Json)>, maxCategories: nat, deriveRegex: bool)
    requires ObserveFields(p, fs, maxCategories, deriveRegex).Ok?
    ensures ProfileWidens(p, ObserveFields(p, fs, maxCategories, deriveRegex).value)
  {
    ObserveFieldsPrefixWidens(p, fs, 0, maxCategories, deriveRegex);
    assert fs[..0] == [];
  }

  lemma {:induction false} CollectPrefixOk(records: seq<Json>, i: nat, maxCategories: nat, deriveRegex: bool)
    requires i <= |records| && Collect(records, maxCategories, deriveRegex).Ok?
    ensures Collect(records[..i], maxCategories, deriveRegex).Ok?
  {
    if Collect(records[..i], maxCategories, deriveRegex).Err? {
      CollectErrSticks(records, i, maxCategories, deriveRegex);
    }
  }

  lemma {:induction false} CollectPrefixWidens(records: seq<Json>, i: nat, maxCategories: nat, deriveRegex: bool)
    requires i <= |records| && Collect(records, maxCategories, deriveRegex).Ok?
    ensures Collect(records[..i], maxCategories, deriveRegex).Ok?
    ensures ProfileWidens(Collect(records[..i], maxCategories, deriveRegex).value,
                          Collect(records, maxCategories, deriveRegex).value)
    decreases |records| - i
  {
    CollectPrefixOk(records, i, maxCategories, deriveRegex);
    var last := Collect(records, maxCategories, deriveRegex).value;
    if i == |records| {
      assert records[..i] == records;
    } else {
      CollectPrefixWidens(records, i + 1, maxCategories, deriveRegex);
      var q := Collect(records[..i], maxCategories, deriveRegex).value;
      var q1 := Collect(records[..i + 1], maxCategories, deriveRegex).value;
      assert records[..i + 1][..i] == records[..i] && records[..i + 1][i] == records[i];
      assert ObserveRecord(q, records[i], maxCategories, deriveRegex) == Ok(q1);
      ObserveFieldsWidens(q, records[i].fields, maxCategories, deriveRegex);
      ProfileWidensTrans(q, q1, last);
    }
  }

  /** A numeric observation lies in the range it was just added to. */
  lemma ObserveEncloses(st: FieldStats, v: Json, maxCategories: nat, deriveRegex: bool)
    requires Observe(st, v, maxCategories, deriveRegex).Ok?
    requires Normalize(v).Some? && IsNumeric(InferType(Normalize(v).value))
    ensures Encloses(Observe(st, v, maxCategories, deriveRegex).value, NumericValue(Normalize(v).value))
  {
    assert Classify(st, Normalize(v).value, maxCategories).Ok?;
  }

  lemma EnclosesWidened(p: Profile, q: Profile, field: string, x: real)
    requires field in p.stats && Encloses(p.stats[field], x) && ProfileWidens(p, q)
    ensures field in q.stats && Encloses(q.stats[field], x)
  {
  }

  /** The pair at position j of a record lies in the range right after the record's first j+1 pairs. */
  lemma EnclosedAfterPair(p: Profile, fs: seq<(string, Json)>, j: nat, maxCategories: nat, deriveRegex: bool)
    requires j < |fs| && ObserveFields(p, fs[..j + 1], maxCategories, deriveRegex).Ok?
    requires Normalize(fs[j].1).Some? && IsNumeric(InferType(Normalize(fs[j].1).value))
    ensures var after := ObserveFields(p, fs[..j + 1], maxCategories, deriveRegex).value;
            fs[j].0 in after.stats && Encloses(after.stats[fs[j].0], NumericValue(Normalize(fs[j].1).value))
  {
    ObserveFieldsStep(p, fs, j, maxCategories, deriveRegex);
    ObserveFieldEncloses(ObserveFields(p, fs[..j], maxCategories, deriveRegex).value, fs[j].0, fs[j].1, maxCategories, deriveRegex);
  }

  /** Observing the first j+1 pairs is observing pair j on the profile of the first j. */
  lemma ObserveFieldsStep(p: Profile, fs: seq<(string, Json)>, j: nat, maxCategories: nat, deriveRegex: bool)
    requires j < |fs| && ObserveFields(p, fs[..j + 1], maxCategories, deriveRegex).Ok?
    ensures ObserveFields(p, fs[..j], maxCategories, deriveRegex).Ok?
    ensures ObserveField(ObserveFields(p, fs[..j], maxCategories, deriveRegex).value, fs[j].0, fs[j].1, maxCategories, deriveRegex)
            == ObserveFields(p, fs[..j + 1], maxCategories, deriveRegex)
  {
    assert fs[..j + 1][..j] == fs[..j] && fs[..j + 1][j] == fs[j];
  }

  /** A numeric value lies in its field's range right after it is observed. */
  lemma ObserveFieldEncloses(q: Profile, field: string, v: Json, maxCategories: nat, deriveRegex: bool)
    requires ObserveField(q, field, v, maxCategories, deriveRegex).Ok?
    requires Normalize(v).Some? && IsNumeric(InferType(Normalize(v).value))
    ensures var after := ObserveField(q, field, v, maxCategories, deriveRegex).value;
            field in after.stats && Encloses(after.stats[field], NumericValue(Normalize(v).value))
  {
    ObserveEncloses(Entry(q, field), v, maxCategories, deriveRegex);
  }

  /**
   * numeric_min and numeric_max bound every numeric value observed for
   * the field, in every record of the sample.
   */
  lemma RangeEnclosesObservations(records: seq<Json>, k: nat, j: nat, maxCategories: nat, deriveRegex: bool)
    requires Collect(records, maxCategories, deriveRegex).Ok?
    requires k < |records| && records[k].Obj? && j < |records[k].fields|
    requires Normalize(records[k].fields[j].1).Some?
    requires IsNumeric(InferType(Normalize(records[k].fields[j].1).value))
    ensures var p := Collect(records, maxCategories, deriveRegex).value;
            var field := records[k].fields[j].0;
            field in p.stats && Encloses(p.stats[field], NumericValue(Normalize(records[k].fields[j].1).value))
  {
    var fs := records[k].fields;
    CollectPrefixOk(records, k, maxCategories, deriveRegex);
    CollectPrefixWidens(records, k + 1, maxCategories, deriveRegex);
    var pk := Collect(records[..k], maxCategories, deriveRegex).value;
    CollectStep(records, k, maxCategories, deriveRegex);
    EnclosedAfterRecord(pk, fs, j, maxCategories, deriveRegex);
    EnclosesWidened(Collect(records[..k + 1], maxCategories, deriveRegex).value, Collect(records, maxCategories, deriveRegex).value,
                    fs[j].0, NumericValue(Normalize(fs[j].1).value));
  }

  /** Record k of the sample is observed on the profile of the records before it. */
  lemma CollectStep(records: seq<Json>, k: nat, maxCategories: nat, deriveRegex: bool)
    requires k < |records| && records[k].Obj? && Collect(records[..k], maxCategories, deriveRegex).Ok?
    ensures Collect(records[..k + 1], maxCategories, deriveRegex)
            == ObserveFields(Collect(records[..k], maxCategories, deriveRegex).value, records[k].fields, maxCategories, deriveRegex)
  {
    assert records[..k + 1][..k] == records[..k] && records[..k + 1][k] == records[k];
  }

  /** A numeric pair of a record lies in its field's range once the whole record is observed. */
  lemma EnclosedAfterRecord(p: Profile, fs: seq<(string, Json)>, j: nat, maxCategories: nat, deriveRegex: bool)
    requires j < |fs| && ObserveFields(p, fs, maxCategories, deriveRegex).Ok?
    requires Normalize(fs[j].1).Some? && IsNumeric(InferType(Normalize(fs[j].1).value))
    ensures var q := ObserveFields(p, fs, maxCategories, deriveRegex).value;
            fs[j].0 in q.stats && Encloses(q.stats[fs[j].0], NumericValue(Normalize(fs[j].1).value))
  {
    ObserveFieldsPrefixWidens(p, fs, j + 1, maxCategories, deriveRegex);
    EnclosedAfterPair(p, fs, j, maxCategories, deriveRegex);
    EnclosesWidened(ObserveFields(p, fs[..j + 1], maxCategories, deriveRegex).value, ObserveFields(p, fs, maxCategories, deriveRegex).value,
                    fs[j].0, NumericValue(Normalize(fs[j].1).value));
  }
}
