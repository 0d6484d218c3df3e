/**
 * The quality reporter's aggregation: a batch of validation messages is
 * folded into per-(validator, rule, feature) valid/fail counters, which
 * are then added into the report table.
 */
module ReportStats {
  import opened Wrappers
  import opened JsonValue
  import opened PathResolver
  import opened Counters
  import DQA = DqaValidator


  // ---------------------------------------------------------------------------
  // Reading a batch

  /** Python iteration over a decoded value: list items, mapping keys or characters. */
  function Iterated(j: Json): (r: Result<seq<Json>, Failure>)
    ensures j.Arr? ==> r == Ok(j.items)
    ensures j.Null? || IsNumber(j) ==> r.Err?
  {
    match j
    case Arr(items) => Ok(items)
    case Obj(fields) => Ok(seq(|fields|, i requires 0 <= i < |fields| => Str(fields[i].0)))
    case Str(s) => Ok(seq(|s|, i requires 0 <= i < |s| => Str([s[i]])))
    case _ => Err(Raised("TypeError"))
  }

  /** A message's validator id and the validations it carries. */
  function MessageParts(message: Json): (r: Result<(Json, seq<Json>), Failure>)
  {
    var value :- DQA.Subscript(message, "value");
    var validator :- DQA.Subscript(value, "validatorID");
    var validations :- DQA.Subscript(value, "validations");
    var vs :- Iterated(validations);
    Ok((validator, vs))
  }

  /** Whether a value can be part of a dictionary key. */
  predicate Hashable(j: Json) {
    !j.Arr? && !j.Obj?
  }

  /** One validation: its counter key and whether its result is truthy. */
  function Observe(validator: Json, v: Json): (r: Result<(Key, bool), Failure>)
    ensures r.Ok? ==> r.value.0.0 == validator
    ensures r.Ok? ==> DQA.Subscript(v, "result").Ok? && r.value.1 == Truthy(DQA.Subscript(v, "result").value)
    ensures r.Ok? <==> DQA.Subscript(v, "type").Ok? && DQA.Subscript(v, "feature").Ok? && DQA.Subscript(v, "result").Ok?
                       && Hashable(validator) && Hashable(DQA.Subscript(v, "type").value)
                       && Hashable(DQA.Subscript(v, "feature").value)
  {
    var rule :- DQA.Subscript(v, "type");
    var feature :- DQA.Subscript(v, "feature");
    var result :- DQA.Subscript(v, "result");
    if !Hashable(validator) || !Hashable(rule) || !Hashable(feature) then Err(Raised("TypeError"))
    else Ok(((validator, rule, feature), Truthy(result)))
  }

  /** The observations of a message's validations, in order; the first failure aborts. */
  function ObserveAll(validator: Json, vs: seq<Json>): (r: Result<seq<(Key, bool)>, Failure>)
    ensures r.Ok? ==> |r.value| == |vs|
  {
    if vs == [] then Ok([])
    else
      var init :- ObserveAll(validator, vs[..|vs| - 1]);
      var o :- Observe(validator, vs[|vs| - 1]);
      Ok(init + [o])
  }

  /** Reading one more validation extends the observations by its own, or fails with it. */
  lemma ObserveAllSnoc(validator: Json, vs: seq<Json>, j: nat)
    requires j < |vs| && ObserveAll(validator, vs[..j]).Ok?
    ensures Observe(validator, vs[j]).Err? ==> ObserveAll(validator, vs[..j + 1]).Err?
    ensures Observe(validator, vs[j]).Ok? ==>
              ObserveAll(validator, vs[..j + 1]) == Ok(ObserveAll(validator, vs[..j]).value + [Observe(validator, vs[j]).value])
  {
    assert vs[..j + 1][..j] == vs[..j];
  }

  /** The number of validations a message carries, 0 when it cannot be read. */
  function ValidationCount(message: Json): nat {
    match MessageParts(message)
    case Ok(parts) => |parts.1|
    case Err(_) => 0
  }

  function MessageObservations(message: Json): (r: Result<seq<(Key, bool)>, Failure>)
    ensures r.Ok? ==> |r.value| == ValidationCount(message)
  {
    var parts :- MessageParts(message);
    ObserveAll(parts.0, parts.1)
  }

  function BatchSize(messages: seq<Json>): nat {
    if messages == [] then 0
    else BatchSize(messages[..|messages| - 1]) + ValidationCount(messages[|messages| - 1])
  }

  /** Every validation of the batch, message by message; any unreadable one aborts. */
  function Observations(messages: seq<Json>): (r: Result<seq<(Key, bool)>, Failure>)
    ensures r.Ok? ==> |r.value| == BatchSize(messages)
  {
    if messages == [] then Ok([])
    else
      var init :- Observations(messages[..|messages| - 1]);
      var last :- MessageObservations(messages[|messages| - 1]);
      Ok(init + last)
  }

  lemma {:induction false} ObserveAllErrSticks(validator: Json, vs: seq<Json>, j: nat)
    requires j <= |vs| && ObserveAll(validator, vs[..j]).Err?
    ensures ObserveAll(validator, vs).Err?
    decreases |vs|
  {
    if j < |vs| {
      assert vs[..|vs| - 1][..j] == vs[..j];
      ObserveAllErrSticks(validator, vs[..|vs| - 1], j);
    } else {
      assert vs[..j] == vs;
    }
  }

  lemma {:induction false} ObservationsErrSticks(messages: seq<Json>, j: nat)
    requires j <= |messages| && Observations(messages[..j]).Err?
    ensures Observations(messages).Err?
    decreases |messages|
  {
    if j < |messages| {
      assert messages[..|messages| - 1][..j] == messages[..j];
      ObservationsErrSticks(messages[..|messages| - 1], j);
    } else {
      assert messages[..j] == messages;
    }
  }

  // ---------------------------------------------------------------------------
  // Counting a batch

  /** The counters of a batch: every validation counted under its key, or the batch's failure. */
  function Aggregate(messages: seq<Json>): (r: Result<Table, Failure>)
    ensures r.Ok? <==> Observations(messages).Ok?
  {
    var obs :- Observations(messages);
    Ok(TallyAll(map[], obs))
  }

  /**
   * Per key, `valid` counts the validations with a truthy result and
   * `fail` the others, and the counters together hold one count per
   * validation in the batch.
   */
  lemma AggregateCounts(messages: seq<Json>, key: Key)
    requires Aggregate(messages).Ok?
    ensures var obs := Observations(messages).value;
            var t := Aggregate(messages).value;
            && CountsAt(t, key) == Counts(Occurrences(obs, key, true), Occurrences(obs, key, false))
            && (key in t <==> Occurrences(obs, key, true) + Occurrences(obs, key, false) > 0)
            && Total(t) == BatchSize(messages)
  {
    var obs := Observations(messages).value;
    TallyAllCounts(map[], obs, key);
    TallyAllTotal(map[], obs);
    assert Total(map[]) == 0;
  }

  // ---------------------------------------------------------------------------
  // The report table

  /** A report row as the API returns it. */
  function RowJson(k: Key, c: Counts): (row: Json)
    ensures row.Obj? && |row.fields| == 5
  {
    Obj([("validator", k.0), ("rule", k.1), ("feature", k.2), ("VALID", Int(c.valid)), ("FAIL", Int(c.fail))])
  }

  /** A row carries its key's three parts under their column names. */
  lemma RowJsonKey(k: Key, c: Counts)
    ensures var fs := RowJson(k, c).fields;
            && Lookup(fs, "validator") == Some(k.0)
            && Lookup(fs, "rule") == Some(k.1)
            && Lookup(fs, "feature") == Some(k.2)
  {
    var fs := RowJson(k, c).fields;
    LookupAt(fs, "validator", 0);
    LookupAt(fs, "rule", 1);
    LookupAt(fs, "feature", 2);
  }

  /** The last of five fields is found when no earlier one has its key. */
  lemma LastOfFive(a: (string, Json), b: (string, Json), c: (string, Json), d: (string, Json), e: (string, Json), key: string)
    requires e.0 == key && a.0 != key && b.0 != key && c.0 != key && d.0 != key
    ensures Lookup([a, b, c, d, e], key) == Some(e.1)
  {
    LookupAt([a, b, c, d, e], key, 4);
  }

  /** A row carries its counters under VALID and FAIL. */
  lemma RowJsonCounts(k: Key, c: Counts)
    ensures var fs := RowJson(k, c).fields;
            Lookup(fs, "VALID") == Some(Int(c.valid)) && Lookup(fs, "FAIL") == Some(Int(c.fail))
  {
    var fs := RowJson(k, c).fields;
    LookupAt(fs, "VALID", 3);
    assert "rule"[0] != "FAIL"[0];
    LastOfFive(fs[0], fs[1], fs[2], fs[3], fs[4], "FAIL");
  }

  class TopicStats {
    var table: Table

    constructor ()
      ensures table == map[]
    {
      table := map[];
    }

    /**
     * Folds a batch into counters and upserts them; any unreadable
     * message or validation drops the whole batch.
     */
    method BatchUpdate(messages: seq<Json>, postgres: bool)
      modifies this`table
      ensures Aggregate(messages).Err? ==> table == old(table)
      ensures Aggregate(messages).Ok? ==> table == Upsert(old(table), Aggregate(messages).value)
    {
      if messages == [] {
        assert Aggregate(messages) == Ok(map[]);
        assert Upsert(table, map[]) == table;
        return;
      }
      var updates := AggregateBatch(messages);
      if updates.Err? {
        return;
      }
      BulkUpsert(updates.value, postgres);
    }

    /** The loop over the batch's messages, counting in memory. */
    static method AggregateBatch(messages: seq<Json>) returns (r: Result<Table, Failure>)
      ensures r.Ok? <==> Aggregate(messages).Ok?
      ensures r.Ok? ==> r.value == Aggregate(messages).value
    {
      var updates: Table := map[];
      var i := 0;
      while i < |messages|
        invariant 0 <= i <= |messages|
        invariant Observations(messages[..i]).Ok?
        invariant updates == TallyAll(map[], Observations(messages[..i]).value)
      {
        var done := Observations(messages[..i]).value;
        assert messages[..i + 1][..i] == messages[..i];
        var next := TallyMessage(updates, messages[i]);
        if next.Err? {
          ObservationsErrSticks(messages, i + 1);
          return Err(next.error);
        }
        TallyAllAppend(map[], done, MessageObservations(messages[i]).value);
        updates := next.value;
        i := i + 1;
      }
      assert messages[..i] == messages;
      r := Ok(updates);
    }

    /** The inner loop over one message's validations. */
    static method TallyMessage(updates0: Table, message: Json) returns (r: Result<Table, Failure>)
      ensures r.Ok? <==> MessageObservations(message).Ok?
      ensures r.Ok? ==> r.value == TallyAll(updates0, MessageObservations(message).value)
    {
      var parts := MessageParts(message);
      if parts.Err? {
        return Err(parts.error);
      }
      var (validator, vs) := parts.value;
      var updates := updates0;
      var j := 0;
      while j < |vs|
        invariant 0 <= j <= |vs|
        invariant ObserveAll(validator, vs[..j]).Ok?
        invariant updates == TallyAll(updates0, ObserveAll(validator, vs[..j]).value)
      {
        var o := Observe(validator, vs[j]);
        ObserveAllSnoc(validator, vs, j);
        if o.Err? {
          ObserveAllErrSticks(validator, vs, j + 1);
          return Err(o.error);
        }
        TallyAllSnoc(updates0, ObserveAll(validator, vs[..j]).value, o.value);
        updates := Tally(updates, o.value);
        j := j + 1;
      }
      assert vs[..j] == vs;
      r := Ok(updates);
    }

    /** Adds the counters into the table, by either database dialect. */
    method BulkUpsert(updates: Table, postgres: bool)
      modifies this`table
      ensures table == Upsert(old(table), updates)
    {
      if updates == map[] {
        assert Upsert(table, updates) == table;
        return;
      }
      if postgres {
        UpsertOnConflict(updates);
      } else {
        UpsertFetched(updates);
      }
    }

    /** PostgreSQL: one insert per key, adding to the row on a key conflict. */
    method UpsertOnConflict(updates: Table)
      modifies this`table
      ensures table == Upsert(old(table), updates)
    {
      var pending := updates.Keys;
      assert Upsert(table, Restrict(updates, {})) == table;
      while pending != {}
        invariant pending <= updates.Keys
        invariant table == Upsert(old(table), Restrict(updates, updates.Keys - pending))
        decreases pending
      {
        var k :| k in pending;
        UpsertPendingStep(old(table), updates, pending, k);
        table := table[k := Plus(CountsAt(table, k), updates[k])];
        pending := pending - {k};
      }
      assert updates.Keys - pending == updates.Keys;
      UpsertEverything(old(table), updates);
    }

    /** Other databases: fetch the existing rows, add into them, insert the rest. */
    method UpsertFetched(updates: Table)
      modifies this`table
      ensures table == Upsert(old(table), updates)
    {
      var existing := Restrict(table, updates.Keys);
      var pending := updates.Keys;
      assert Upsert(table, Restrict(updates, {})) == table;
      while pending != {}
        invariant pending <= updates.Keys
        invariant existing == Restrict(old(table), updates.Keys)
        invariant table == Upsert(old(table), Restrict(updates, updates.Keys - pending))
        decreases pending
      {
        var k :| k in pending;
        UpsertPendingStep(old(table), updates, pending, k);
        if k in existing {
          table := table[k := Plus(table[k], updates[k])];
        } else {
          table := table[k := updates[k]];
        }
        pending := pending - {k};
      }
      assert updates.Keys - pending == updates.Keys;
      UpsertEverything(old(table), updates);
    }

    /** One row per table entry, in whatever order the database yields them. */
    method GetReport() returns (rows: seq<Json>)
      ensures |rows| == |table.Keys|
      ensures forall k :: k in table ==> RowJson(k, table[k]) in rows
      ensures forall i :: 0 <= i < |rows| ==> exists k :: k in table && rows[i] == RowJson(k, table[k])
    {
      rows := [];
      var pending := table.Keys;
      while pending != {}
        invariant pending <= table.Keys
        invariant |rows| + |pending| == |table.Keys|
        invariant forall k :: k in table && k !in pending ==> RowJson(k, table[k]) in rows
        invariant forall i :: 0 <= i < |rows| ==> exists k :: k in table && k !in pending && rows[i] == RowJson(k, table[k])
        decreases pending
      {
        var k :| k in pending;
        rows := rows + [RowJson(k, table[k])];
        pending := pending - {k};
      }
    }
  }
}
