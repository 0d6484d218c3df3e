/**
 * Per-key valid/fail counters: folding outcomes into them and adding one
 * table of counters into another, the way the reporter's database upsert
 * does.
 */
module Counters {
  import opened JsonValue

  /** A report row's primary key: validator id, rule type and feature. */
  type Key = (Json, Json, Json)

  datatype Counts = Counts(valid: nat, fail: nat)

  /** Counters per key. */
  type Table = map<Key, Counts>

  function Weight(c: Counts): nat {
    c.valid + c.fail
  }

  function Plus(a: Counts, b: Counts): Counts {
    Counts(a.valid + b.valid, a.fail + b.fail)
  }

  function CountsAt(t: Table, k: Key): Counts {
    if k in t then t[k] else Counts(0, 0)
  }

  // ---------------------------------------------------------------------------
  // Counting

  /** One observation added to the counters. */
  function Tally(t: Table, o: (Key, bool)): Table {
    t[o.0 := Bump(CountsAt(t, o.0), o.1)]
  }

  /** One more passing or one more failing validation. */
  function Bump(c: Counts, passed: bool): Counts {
    if passed then Counts(c.valid + 1, c.fail) else Counts(c.valid, c.fail + 1)
  }

  /** The observations in turn; a key gets a row once it is observed, and no other key does. */
  function TallyAll(t: Table, obs: seq<(Key, bool)>): (r: Table)
    ensures r.Keys == t.Keys + set o | o in obs :: o.0
  {
    if obs == [] then t else Tally(TallyAll(t, obs[..|obs| - 1]), obs[|obs| - 1])
  }

  lemma {:induction false} TallyAllAppend(t: Table, a: seq<(Key, bool)>, b: seq<(Key, bool)>)
    ensures TallyAll(t, a + b) == TallyAll(TallyAll(t, a), b)
    decreases |b|
  {
    if b == [] {
      assert a + b == a;
    } else {
      var init := b[..|b| - 1];
      assert (a + b)[..|a + b| - 1] == a + init;
      assert (a + b)[|a + b| - 1] == b[|b| - 1];
      TallyAllAppend(t, a, init);
    }
  }

  /** Folding one more observation is one more tally. */
  lemma TallyAllSnoc(t: Table, obs: seq<(Key, bool)>, o: (Key, bool))
    ensures TallyAll(t, obs + [o]) == Tally(TallyAll(t, obs), o)
  {
    var s := obs + [o];
    assert s[..|s| - 1] == obs;
    assert s[|s| - 1] == o;
  }

  /** How many observations of `key` have the given outcome. */
  function Occurrences(obs: seq<(Key, bool)>, key: Key, passed: bool): nat {
    if obs == [] then 0
    else Occurrences(obs[..|obs| - 1], key, passed) + (if obs[|obs| - 1] == (key, passed) then 1 else 0)
  }

  /** Each counter is its key's truthy and falsy observations added to where it started. */
  lemma {:induction false} TallyAllCounts(t: Table, obs: seq<(Key, bool)>, key: Key)
    ensures CountsAt(TallyAll(t, obs), key).valid == CountsAt(t, key).valid + Occurrences(obs, key, true)
    ensures CountsAt(TallyAll(t, obs), key).fail == CountsAt(t, key).fail + Occurrences(obs, key, false)
    ensures key in TallyAll(t, obs) <==> key in t || Occurrences(obs, key, true) + Occurrences(obs, key, false) > 0
  {
    if obs != [] {
      var init := obs[..|obs| - 1];
      var last := obs[|obs| - 1];
      TallyAllCounts(t, init, key);
      var m := TallyAll(t, init);
      assert TallyAll(t, obs) == Tally(m, last);
      if last.0 == key {
        assert CountsAt(Tally(m, last), key) == Bump(CountsAt(m, key), last.1);
      } else {
        assert CountsAt(Tally(m, last), key) == CountsAt(m, key);
      }
    }
  }

  /** The sum of valid and fail over every row. */
  ghost function Total(t: Table): nat
    decreases |t.Keys|
  {
    if t == map[] then 0
    else
      var k :| k in t;
      Weight(t[k]) + Total(t - {k})
  }

  /** The total can be taken with any row first. */
  lemma {:induction false} TotalRemove(t: Table, k: Key)
    requires k in t
    ensures Total(t) == Weight(t[k]) + Total(t - {k})
    decreases |t.Keys|
  {
    var j :| k in t && j in t && Total(t) == Weight(t[j]) + Total(t - {j});
    if j != k {
      assert |(t - {j}).Keys| < |t.Keys| by {
        assert (t - {j}).Keys < t.Keys;
      }
      TotalRemove(t - {j}, k);
      assert |(t - {k}).Keys| < |t.Keys| by {
        assert (t - {k}).Keys < t.Keys;
      }
      TotalRemove(t - {k}, j);
      assert t - {j} - {k} == t - {k} - {j};
    }
  }

  /** Setting one row, new or existing, trades its old weight for the new one in the total. */
  lemma TotalSet(t: Table, k: Key, c: Counts)
    ensures Total(t[k := c]) + Weight(CountsAt(t, k)) == Total(t) + Weight(c)
  {
    var u := t[k := c];
    TotalRemove(u, k);
    assert u[k] == c;
    if k in t {
      TotalRemove(t, k);
      assert u - {k} == t - {k};
      assert Total(u) == Weight(c) + Total(t - {k});
      assert CountsAt(t, k) == t[k];
    } else {
      assert u - {k} == t;
      assert Total(u) == Weight(c) + Total(t);
      assert Weight(CountsAt(t, k)) == 0;
    }
  }

  /** Every observation adds exactly one to the total. */
  lemma {:induction false} TallyAllTotal(t: Table, obs: seq<(Key, bool)>)
    ensures Total(TallyAll(t, obs)) == Total(t) + |obs|
  {
    if obs != [] {
      var init := TallyAll(t, obs[..|obs| - 1]);
      TallyAllTotal(t, obs[..|obs| - 1]);
      var o := obs[|obs| - 1];
      TotalSet(init, o.0, Bump(CountsAt(init, o.0), o.1));
    }
  }

  // ---------------------------------------------------------------------------
  // Adding a batch into a table

  /** The table after an upsert: batch counts added to existing rows, new rows inserted. */
  function Upsert(table: Table, updates: Table): (r: Table)
    ensures r.Keys == table.Keys + updates.Keys
    ensures forall k :: k in table && k !in updates ==> r[k] == table[k]
    ensures forall k :: k in updates ==> r[k] == Plus(CountsAt(table, k), updates[k])
  {
    map k | k in table.Keys + updates.Keys :: Plus(CountsAt(table, k), CountsAt(updates, k))
  }

  function Restrict(t: Table, keys: set<Key>): (r: Table)
    ensures r.Keys == t.Keys * keys
  {
    map k | k in t && k in keys :: t[k]
  }

  lemma UpsertOneMore(table: Table, updates: Table, done: set<Key>, k: Key)
    requires k in updates && k !in done
    ensures Upsert(table, Restrict(updates, done + {k}))
            == Upsert(table, Restrict(updates, done))[k := Plus(CountsAt(table, k), updates[k])]
  {
    var lhs := Upsert(table, Restrict(updates, done + {k}));
    var rhs := Upsert(table, Restrict(updates, done))[k := Plus(CountsAt(table, k), updates[k])];
    assert lhs.Keys == rhs.Keys;
    forall j | j in lhs
      ensures lhs[j] == rhs[j]
    {
      if j != k {
        assert CountsAt(Restrict(updates, done + {k}), j) == CountsAt(Restrict(updates, done), j);
      }
    }
  }

  /** One loop step of a row-by-row upsert: the pending key is still untouched, and adding its row advances the upsert. */
  lemma UpsertPendingStep(table: Table, updates: Table, pending: set<Key>, k: Key)
    requires pending <= updates.Keys && k in pending
    ensures var t := Upsert(table, Restrict(updates, updates.Keys - pending));
            && (k in t <==> k in table)
            && CountsAt(t, k) == CountsAt(table, k)
            && t[k := Plus(CountsAt(t, k), updates[k])] == Upsert(table, Restrict(updates, updates.Keys - (pending - {k})))
  {
    var done := updates.Keys - pending;
    UpsertOneMore(table, updates, done, k);
    assert updates.Keys - (pending - {k}) == done + {k};
  }

  lemma UpsertEverything(table: Table, updates: Table)
    ensures Upsert(table, Restrict(updates, updates.Keys)) == Upsert(table, updates)
  {
    assert Restrict(updates, updates.Keys) == updates;
  }

  /** Upserting one row first and the rest after is the same upsert. */
  lemma UpsertStep(table: Table, updates: Table, k: Key)
    requires k in updates
    ensures Upsert(table, updates) == Upsert(table[k := Plus(CountsAt(table, k), updates[k])], updates - {k})
  {
    var lhs := Upsert(table, updates);
    var rhs := Upsert(table[k := Plus(CountsAt(table, k), updates[k])], updates - {k});
    assert lhs.Keys == rhs.Keys;
    forall j | j in lhs
      ensures lhs[j] == rhs[j]
    {
      if j == k {
        assert CountsAt(updates - {k}, j) == Counts(0, 0);
      } else {
        assert CountsAt(updates - {k}, j) == CountsAt(updates, j);
      }
    }
  }

  /** An upsert adds the batch's total to the table's. */
  lemma {:induction false} UpsertTotal(table: Table, updates: Table)
    ensures Total(Upsert(table, updates)) == Total(table) + Total(updates)
    decreases |updates.Keys|
  {
    if updates == map[] {
      assert Upsert(table, updates) == table;
      assert Total(updates) == 0;
    } else {
      var k :| k in updates;
      var rest := updates - {k};
      assert rest.Keys < updates.Keys;
      var c := Plus(CountsAt(table, k), updates[k]);
      var next := table[k := c];
      UpsertStep(table, updates, k);
      assert Upsert(table, updates) == Upsert(next, rest);
      UpsertTotal(next, rest);
      assert Total(Upsert(next, rest)) == Total(next) + Total(rest);
      TotalSet(table, k, c);
      TotalRemove(updates, k);
      assert Weight(c) == Weight(CountsAt(table, k)) + Weight(updates[k]);
      assert Total(Upsert(table, updates)) == Total(table) + Total(updates);
    }
  }
}
