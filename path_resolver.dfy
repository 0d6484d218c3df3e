/**
 * Feature paths of the rule evaluator: `*` flattens a record into its leaf
 * values depth-first, any other path is a JMESPath expression. Only the
 * dotted-identifier subset of JMESPath is modelled (`a`, `a.b.c`), where a
 * missing key, or a step applied to something that is not an object, yields
 * null.
 */
module PathResolver {
  import opened Wrappers
  import opened PyText
  import opened JsonValue

  /** Why an evaluation stops: a Python exception, or a path outside the modelled JMESPath subset. */
  datatype Failure =
    | Raised(reason: string)
    | UnsupportedPath(path: string)

  /** Number of children of a list or mapping. */
  function Width(j: Json): nat {
    match j
    case Arr(xs) => |xs|
    case Obj(fs) => |fs|
    case _ => 0
  }

  /** extract_values: the scalar leaves of j, depth-first, mapping keys dropped. */
  function Leaves(j: Json): (r: seq<Json>)
    ensures forall k :: 0 <= k < |r| ==> IsScalar(r[k])
    ensures IsScalar(j) ==> r == [j]
    decreases j, 1
  {
    if IsScalar(j) then [j] else LeavesFrom(j, 0)
  }

  /** The leaves of the children of container j from position k on. */
  function LeavesFrom(j: Json, k: nat): (r: seq<Json>)
    requires !IsScalar(j) && k <= Width(j)
    ensures forall n :: 0 <= n < |r| ==> IsScalar(r[n])
    decreases j, 0, Width(j) - k
  {
    if k == Width(j) then []
    else
      var child := match j
        case Arr(xs) => Leaves(xs[k])
        case Obj(fs) => Leaves(fs[k].1);
      child + LeavesFrom(j, k + 1)
  }

  lemma {:induction false} LeavesOfScalarList(xs: seq<Json>, k: nat)
    requires k <= |xs|
    requires forall n :: 0 <= n < |xs| ==> IsScalar(xs[n])
    ensures LeavesFrom(Arr(xs), k) == xs[k..]
    decreases |xs| - k
  {
    if k < |xs| {
      LeavesOfScalarList(xs, k + 1);
      assert xs[k..] == [xs[k]] + xs[k + 1..];
    }
  }

  /** Flattening is idempotent: the leaves of a list of leaves are those leaves. */
  lemma LeavesIdempotent(j: Json)
    ensures Leaves(Arr(Leaves(j))) == Leaves(j)
  {
    var xs := Leaves(j);
    if xs != [] {
      LeavesOfScalarList(xs, 0);
    }
  }

  /** Every leaf of a child value is a leaf of its container, with the same multiplicity or more. */
  lemma {:induction false} ChildLeavesIncluded(j: Json, k: nat, c: nat)
    requires !IsScalar(j) && k <= c < Width(j)
    ensures multiset(Leaves(if j.Arr? then j.items[c] else j.fields[c].1)) <= multiset(LeavesFrom(j, k))
    decreases Width(j) - k
  {
    var head := if j.Arr? then Leaves(j.items[k]) else Leaves(j.fields[k].1);
    var rest := LeavesFrom(j, k + 1);
    assert LeavesFrom(j, k) == head + rest;
    if k < c {
      ChildLeavesIncluded(j, k + 1, c);
      SuffixIncluded(head, rest);
    } else {
      PrefixIncluded(head, rest);
    }
  }

  lemma PrefixIncluded<T>(a: seq<T>, b: seq<T>)
    ensures multiset(a) <= multiset(a + b)
  {
    assert multiset(a + b) == multiset(a) + multiset(b);
  }

  lemma SuffixIncluded<T>(a: seq<T>, b: seq<T>)
    ensures multiset(b) <= multiset(a + b)
  {
    assert multiset(a + b) == multiset(a) + multiset(b);
  }

  /** One JMESPath identifier: a letter or '_' followed by letters, digits or '_'. */
  predicate IsIdentifier(s: string) {
    && s != []
    && ('a' <= s[0] <= 'z' || 'A' <= s[0] <= 'Z' || s[0] == '_')
    && forall k :: 1 <= k < |s| ==>
         'a' <= s[k] <= 'z' || 'A' <= s[k] <= 'Z' || '0' <= s[k] <= '9' || s[k] == '_'
  }

  /** Every step of a split path is an identifier. */
  predicate AllIdentifiers(keys: seq<string>) {
    forall k :: 0 <= k < |keys| ==> IsIdentifier(keys[k])
  }

  /** A sub-expression chain: null for a missing key or for a step on a non-object. */
  function Follow(j: Json, keys: seq<string>): (r: Json)
    ensures keys == [] ==> r == j
    ensures keys != [] && !j.Obj? ==> r == Null
  {
    if keys == [] then j
    else if j.Obj? then
      match Lookup(j.fields, keys[0])
      case Some(v) => Follow(v, keys[1..])
      case None => Null
    else Null
  }

  /** jmespath.search(path, sample) for a dotted path of identifiers. */
  function Search(sample: Json, path: string): (r: Result<Json, Failure>)
    ensures r.Ok? <==> AllIdentifiers(Split(path, '.'))
    ensures r.Ok? ==> r.value == Follow(sample, Split(path, '.'))
  {
    var keys := Split(path, '.');
    if AllIdentifiers(keys) then Ok(Follow(sample, keys))
    else Err(UnsupportedPath(path))
  }

  /**
   * _get_values: `*` gives the leaves of the whole sample; any other path
   * gives the list it resolves to unchanged, or its value (null when
   * absent) as a one-element list.
   */
  function GetValues(sample: Json, path: string): (r: Result<seq<Json>, Failure>)
    ensures path == "*" ==> r == Ok(Leaves(sample))
    ensures path != "*" ==> r.Ok? == Search(sample, path).Ok?
    ensures path != "*" && r.Ok? ==>
              var v := Search(sample, path).value;
              r.value == (if v.Arr? then v.items else [v])
    ensures r.Ok? && path != "*" ==> |r.value| >= 1 || Search(sample, path).value == Arr([])
  {
    if path == "*" then Ok(Leaves(sample))
    else
      var v :- Search(sample, path);
      Ok(if v.Arr? then v.items else [v])
  }

  /** A path of one identifier reads that key of an object sample, null when absent. */
  lemma TopLevelLookup(sample: Json, key: string)
    requires IsIdentifier(key) && sample.Obj?
    ensures Search(sample, key) == Ok(Lookup(sample.fields, key).GetOr(Null))
  {
    assert Split(key, '.') == [key] by {
      assert '.' !in key;
    }
  }
}
