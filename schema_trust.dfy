/**
 * The schema trust counter of the schema validator: how often each schema
 * has been seen, when a schema becomes trusted and is published to the
 * registry, and the periodic cleanup of rarely seen schemas.
 *
 * A schema is known only by its key (the hashed, space-free JSON of the
 * schema inferred from a message); the registry's answers are parameters.
 */
module SchemaTrust {
  import opened Wrappers
  import opened PyText

  const DEFAULT_MIN: nat := 10
  const DEFAULT_MAX_MESSAGES: nat := 10000

  type SchemaKey = string

  /** A numeric setting: its value when given as a decimal string, the default otherwise. */
  function Setting(raw: Option<string>, default: nat): (n: nat)
    ensures raw.Some? && IsDigitString(raw.value) ==> n == DigitsValue(raw.value)
    ensures raw.None? || !IsDigitString(raw.value) ==> n == default
  {
    if raw.Some? && IsDigitString(raw.value) then DigitsValue(raw.value) else default
  }

  /** Strict mode is on only for the exact text "True". */
  function StrictSetting(raw: Option<string>): (strict: bool)
    ensures strict <==> raw == Some("True")
  {
    raw.Some? && raw.value == "True"
  }

  /**
   * One character of the subject prefix read as a pattern: the prefix is
   * compiled without escaping, so '.' matches any character but a newline;
   * the other characters a Kafka topic may hold (letters, digits, '_' and
   * '-') match themselves.
   */
  predicate CharMatches(p: char, c: char) {
    if p == '.' then c != '\n' else c == p
  }

  /** The pattern `prefix` matches all of `s`, character by character. */
  predicate PrefixMatches(prefix: string, s: string) {
    |prefix| == |s| && forall k :: 0 <= k < |s| ==> CharMatches(prefix[k], s[k])
  }

  /** A prefix not ending in a digit or '.', as every subject prefix "<topic>_auto_" does. */
  predicate Delimited(prefix: string) {
    prefix != [] && !IsDigit(prefix[|prefix| - 1]) && prefix[|prefix| - 1] != '.'
  }

  /**
   * The search for `prefix(\d+)$` in `t` has a match starting at j: the
   * prefix matches there and one or more digits follow up to the end.
   */
  predicate MatchAt(prefix: string, t: string, j: nat) {
    j + |prefix| < |t| && PrefixMatches(prefix, t[j..j + |prefix|]) && IsDigitString(t[j + |prefix|..])
  }

  /** The length of the run of digits that ends `t`. */
  function DigitRun(t: string): (n: nat)
    ensures n <= |t| && AllDigits(t[|t| - n..])
    ensures n < |t| ==> !IsDigit(t[|t| - n - 1])
  {
    if t == [] || !IsDigit(t[|t| - 1]) then 0
    else
      var p := t[..|t| - 1];
      var n := DigitRun(p);
      DigitRunStep(t, p, n);
      n + 1
  }

  /** A digit run before a final digit extends by that digit. */
  lemma DigitRunStep(t: string, p: string, n: nat)
    requires t != [] && IsDigit(t[|t| - 1]) && p == t[..|t| - 1]
    requires n <= |p| && AllDigits(p[|p| - n..])
    requires n < |p| ==> !IsDigit(p[|p| - n - 1])
    ensures AllDigits(t[|t| - (n + 1)..])
    ensures n + 1 < |t| ==> !IsDigit(t[|t| - (n + 1) - 1])
  {
    var d := t[|t| - (n + 1)..];
    forall i | 0 <= i < |d| ensures IsDigit(d[i]) {
      if i < n {
        assert d[i] == p[|p| - n..][i];
      }
    }
  }

  /**
   * The number `pattern.search(s).group(1)` gives for the pattern
   * `schemaName(\d+)$`, None when the search fails. `$` matches at the end
   * or before one final newline. Every match of a delimited prefix
   * captures the same digits: the run that ends the name.
   */
  function SubjectNumber(schemaName: string, s: string): (r: Option<nat>)
    ensures r.Some? ==> exists j: nat :: MatchAt(schemaName, Unterminated(s), j)
                                    && r.value == DigitsValue(Unterminated(s)[j + |schemaName|..])
    ensures Delimited(schemaName) ==>
              forall j: nat :: MatchAt(schemaName, Unterminated(s), j) ==>
                r == Some(DigitsValue(Unterminated(s)[j + |schemaName|..]))
  {
    var t := Unterminated(s);
    var n := DigitRun(t);
    if n > 0 && |schemaName| <= |t| - n && PrefixMatches(schemaName, t[|t| - n - |schemaName|..|t| - n]) then
      assert MatchAt(schemaName, t, |t| - n - |schemaName|);
      MatchesAgree(schemaName, t);
      Some(DigitsValue(t[|t| - n..]))
    else
      MatchesAgree(schemaName, t);
      None
  }

  /** After a delimited prefix, a match's digits are exactly the run ending the name. */
  lemma MatchesAgree(schemaName: string, t: string)
    ensures Delimited(schemaName) ==>
              forall j: nat :: MatchAt(schemaName, t, j) ==> DigitRun(t) == |t| - j - |schemaName| > 0
  {
    if Delimited(schemaName) {
      forall j: nat | MatchAt(schemaName, t, j) ensures DigitRun(t) == |t| - j - |schemaName| {
        var k := j + |schemaName|;
        assert t[k - 1] == t[j..k][|schemaName| - 1];
        assert t == t[..k] + t[k..];
        DigitRunAfterSeparator(t[..k], t[k..]);
      }
    }
  }

  /** The name without one final newline, where `$` may also match. */
  function Unterminated(s: string): (t: string)
    ensures s == t || s == t + "\n"
  {
    if s != [] && s[|s| - 1] == '\n' then s[..|s| - 1] else s
  }

  lemma {:induction false} DigitRunAfterSeparator(p: string, d: string)
    requires p != [] && !IsDigit(p[|p| - 1]) && AllDigits(d)
    ensures DigitRun(p + d) == |d|
    decreases |d|
  {
    if d == [] {
      assert p + d == p;
    } else {
      assert (p + d)[..|p + d| - 1] == p + d[..|d| - 1];
      DigitRunAfterSeparator(p, d[..|d| - 1]);
    }
  }

  /**
   * The subject a trusted schema is published under, the prefix followed by
   * the identifier, is read back as that identifier.
   */
  lemma PublishedSubjectNumber(topic: string, n: nat)
    ensures SubjectNumber(topic + "_auto_", topic + "_auto_" + NatToString(n)) == Some(n)
  {
    var p := topic + "_auto_";
    NatToStringDigits(n);
    assert p[|p| - 1] == '_';
    assert Delimited(p);
    SubjectOfDigits(p, NatToString(n));
  }

  /** A prefix not ending in a digit, followed by digits, carries the number those digits spell. */
  lemma SubjectOfDigits(p: string, d: string)
    requires Delimited(p) && IsDigitString(d)
    ensures SubjectNumber(p, p + d) == Some(DigitsValue(d))
  {
    assert PrefixMatches(p, p);
    MatchingSubject(p, p, d);
  }

  /**
   * A subject whose head the prefix matches, '.' standing for any
   * character but a newline, carries the number of the digits after it.
   */
  lemma MatchingSubject(p: string, q: string, d: string)
    requires Delimited(p) && PrefixMatches(p, q) && IsDigitString(d)
    ensures SubjectNumber(p, q + d) == Some(DigitsValue(d))
  {
    var s := q + d;
    assert s[|s| - 1] == d[|d| - 1];
    assert Unterminated(s) == s;
    assert s[0..|p|] == q && s[|p|..] == d;
    assert MatchAt(p, s, 0);
  }

  /** A prefix matches itself with any '.' of it replaced by a character other than a newline. */
  lemma WildcardPosition(p: string, i: nat, c: char)
    requires i < |p| && p[i] == '.' && c != '\n'
    ensures PrefixMatches(p, p[i := c])
  {
  }

  /**
   * A '.' in the topic is a wildcard: with topic "sensors.raw", the subject
   * "sensorsXraw_auto_7" of another topic also counts as published by this
   * validator, with number 7.
   */
  lemma DottedTopicMatchesOtherSubjects(topic: string, i: nat, c: char, n: nat)
    requires i < |topic| && topic[i] == '.' && c != '\n'
    ensures SubjectNumber(topic + "_auto_", topic[i := c] + "_auto_" + NatToString(n)) == Some(n)
  {
    var p := topic + "_auto_";
    var q := topic[i := c] + "_auto_";
    assert q == p[i := c];
    WildcardPosition(p, i, c);
    assert p[|p| - 1] == '_';
    NatToStringDigits(n);
    MatchingSubject(p, q, NatToString(n));
  }

  /** What each subject carries after the prefix, subject by subject. */
  function Captures(schemaName: string, subjects: seq<string>): (cs: seq<Option<nat>>)
    ensures |cs| == |subjects|
    ensures forall i :: 0 <= i < |subjects| ==> cs[i] == SubjectNumber(schemaName, subjects[i])
  {
    seq(|subjects|, i requires 0 <= i < |subjects| => SubjectNumber(schemaName, subjects[i]))
  }

  /** The running maximum of the captured numbers, from 0: it bounds every captured number. */
  function RunningMax(cs: seq<Option<nat>>): (m: nat)
    ensures forall i :: 0 <= i < |cs| && cs[i].Some? ==> cs[i].value <= m
  {
    if cs == [] then 0
    else
      var init := cs[..|cs| - 1];
      assert forall i :: 0 <= i < |init| ==> init[i] == cs[i];
      var m := RunningMax(init);
      match cs[|cs| - 1]
      case Some(n) => if n > m then n else m
      case None => m
  }

  /** The running maximum is one of the captured numbers, or 0 when nothing was captured. */
  lemma {:induction false} RunningMaxAttained(cs: seq<Option<nat>>)
    ensures RunningMax(cs) == 0 || exists i :: 0 <= i < |cs| && cs[i] == Some(RunningMax(cs))
  {
    if cs != [] {
      var init := cs[..|cs| - 1];
      RunningMaxAttained(init);
      assert forall i :: 0 <= i < |init| ==> init[i] == cs[i];
    }
  }

  /** The schema keys the registry holds under the subjects that carry a number, in subject order. */
  function FoundKeys(cs: seq<Option<nat>>, subjects: seq<string>, schemasOf: string -> seq<SchemaKey>): (keys: seq<SchemaKey>)
    requires |cs| == |subjects|
  {
    if subjects == [] then []
    else
      FoundKeys(cs[..|cs| - 1], subjects[..|subjects| - 1], schemasOf)
        + (if cs[|cs| - 1].Some? then schemasOf(subjects[|subjects| - 1]) else [])
  }

  /** One more subject extends the running maximum and the found keys by that subject alone. */
  lemma ScanStep(cs: seq<Option<nat>>, subjects: seq<string>, schemasOf: string -> seq<SchemaKey>, i: nat)
    requires |cs| == |subjects| && i < |subjects|
    ensures RunningMax(cs[..i + 1]) == match cs[i]
                                       case Some(n) => if n > RunningMax(cs[..i]) then n else RunningMax(cs[..i])
                                       case None => RunningMax(cs[..i])
    ensures FoundKeys(cs[..i + 1], subjects[..i + 1], schemasOf)
            == FoundKeys(cs[..i], subjects[..i], schemasOf) + (if cs[i].Some? then schemasOf(subjects[i]) else [])
  {
    assert subjects[..i + 1][..i] == subjects[..i];
    assert cs[..i + 1][..i] == cs[..i];
  }

  /** One more subject adds the trust of its schemas when it carries a number, and nothing otherwise. */
  lemma ScanTrustStep(g: map<SchemaKey, int>, cs: seq<Option<nat>>, subjects: seq<string>, schemasOf: string -> seq<SchemaKey>, i: nat, min: int)
    requires |cs| == |subjects| && i < |subjects|
    ensures g + Trust(FoundKeys(cs[..i + 1], subjects[..i + 1], schemasOf), min)
            == if cs[i].Some? then g + Trust(FoundKeys(cs[..i], subjects[..i], schemasOf), min) + Trust(schemasOf(subjects[i]), min)
               else g + Trust(FoundKeys(cs[..i], subjects[..i], schemasOf), min)
  {
    ScanStep(cs, subjects, schemasOf, i);
    var before := FoundKeys(cs[..i], subjects[..i], schemasOf);
    if cs[i].Some? {
      TrustAppend(g, before, schemasOf(subjects[i]), min);
    } else {
      assert before + [] == before;
    }
  }

  /** Every schema under a subject that carries a number is among the found keys. */
  lemma {:induction false} FoundKeysCover(cs: seq<Option<nat>>, subjects: seq<string>, schemasOf: string -> seq<SchemaKey>, i: nat, k: SchemaKey)
    requires |cs| == |subjects| && i < |subjects| && cs[i].Some? && k in schemasOf(subjects[i])
    ensures k in FoundKeys(cs, subjects, schemasOf)
    decreases |subjects|
  {
    if i < |subjects| - 1 {
      FoundKeysCover(cs[..|cs| - 1], subjects[..|subjects| - 1], schemasOf, i, k);
    }
  }

  /** Every found key is a schema under a subject that carries a number. */
  lemma {:induction false} FoundKeysSound(cs: seq<Option<nat>>, subjects: seq<string>, schemasOf: string -> seq<SchemaKey>, k: SchemaKey)
    requires |cs| == |subjects| && k in FoundKeys(cs, subjects, schemasOf)
    ensures exists i :: 0 <= i < |subjects| && cs[i].Some? && k in schemasOf(subjects[i])
    decreases |subjects|
  {
    var n := |subjects| - 1;
    if !(cs[n].Some? && k in schemasOf(subjects[n])) {
      FoundKeysSound(cs[..n], subjects[..n], schemasOf, k);
      var i :| 0 <= i < n && cs[..n][i].Some? && k in schemasOf(subjects[..n][i]);
      assert cs[i].Some? && k in schemasOf(subjects[i]);
    }
  }

  /** Without a matching subject nothing is found. */
  lemma {:induction false} FoundKeysNone(cs: seq<Option<nat>>, subjects: seq<string>, schemasOf: string -> seq<SchemaKey>)
    requires |cs| == |subjects| && forall i :: 0 <= i < |cs| ==> cs[i].None?
    ensures FoundKeys(cs, subjects, schemasOf) == []
    decreases |subjects|
  {
    if subjects != [] {
      var n := |subjects| - 1;
      assert forall i :: 0 <= i < n ==> cs[..n][i] == cs[i];
      FoundKeysNone(cs[..n], subjects[..n], schemasOf);
    }
  }

  /** Every key at the same count. */
  function Trust(keys: seq<SchemaKey>, count: int): (m: map<SchemaKey, int>)
    ensures m.Keys == set k | k in keys
    ensures forall k :: k in m ==> m[k] == count
  {
    map k | k in keys :: count
  }

  lemma TrustAppend(m: map<SchemaKey, int>, a: seq<SchemaKey>, b: seq<SchemaKey>, count: int)
    ensures m + Trust(a + b, count) == m + Trust(a, count) + Trust(b, count)
  {
    var lhs := m + Trust(a + b, count);
    var rhs := m + Trust(a, count) + Trust(b, count);
    assert forall k :: k in a + b <==> k in a || k in b;
    assert lhs.Keys == rhs.Keys;
    assert forall k :: k in lhs ==> lhs[k] == rhs[k];
  }

  lemma TrustConcat(a: seq<SchemaKey>, b: seq<SchemaKey>, count: int)
    ensures Trust(a + b, count) == Trust(a, count) + Trust(b, count)
  {
    assert forall k :: k in a + b <==> k in a || k in b;
  }

  /** A schema is accepted once its count has reached the threshold. */
  predicate Accepted(groundTruth: map<SchemaKey, int>, key: SchemaKey, min: int) {
    key in groundTruth && groundTruth[key] >= min
  }

  /** The counts after a sighting of an unaccepted schema: raised by one unless strict. */
  function Counted(groundTruth: map<SchemaKey, int>, key: SchemaKey, strict: bool): (m: map<SchemaKey, int>)
    ensures strict ==> m == groundTruth
    ensures !strict ==> m.Keys == groundTruth.Keys + {key}
  {
    if strict then groundTruth
    else groundTruth[key := (if key in groundTruth then groundTruth[key] else 0) + 1]
  }

  /** The counts left by a cleanup: exactly the entries above 2, unchanged. */
  function Cleaned(groundTruth: map<SchemaKey, int>): (m: map<SchemaKey, int>)
    ensures forall k :: k in m <==> k in groundTruth && groundTruth[k] > 2
  {
    map k | k in groundTruth && groundTruth[k] > 2 :: groundTruth[k]
  }

  /** Counts stay between 0 and the threshold (1 when the threshold is 0). */
  predicate Bounded(groundTruth: map<SchemaKey, int>, min: nat) {
    forall k :: k in groundTruth ==> 0 <= groundTruth[k] <= if min == 0 then 1 else min
  }

  /** The registry's keys and the found keys, trusted in turn, are trusted together and bounded. */
  lemma StartingTrust(registry: seq<SchemaKey>, found: seq<SchemaKey>, min: nat)
    ensures Trust(registry, min) + Trust(found, min) == Trust(registry + found, min)
    ensures Bounded(Trust(registry + found, min), min)
  {
    TrustConcat(registry, found, min);
  }

  /** Counting an unaccepted schema keeps the counts bounded by the threshold. */
  lemma CountedBounded(groundTruth: map<SchemaKey, int>, key: SchemaKey, strict: bool, min: nat)
    requires Bounded(groundTruth, min) && !Accepted(groundTruth, key, min)
    ensures Bounded(Counted(groundTruth, key, strict), min)
    ensures Bounded(Cleaned(Counted(groundTruth, key, strict)), min)
  {
  }

  /** Counting touches only the sighted key, by exactly one; strict mode touches nothing. */
  lemma CountedRaisesOne(groundTruth: map<SchemaKey, int>, key: SchemaKey, strict: bool)
    ensures var m := Counted(groundTruth, key, strict);
            && (forall k :: k in groundTruth && k != key ==> k in m && m[k] == groundTruth[k])
            && (!strict ==> m[key] == (if key in groundTruth then groundTruth[key] else 0) + 1)
  {
  }

  /**
   * With a threshold above 2, neither counting another schema nor a
   * cleanup ever withdraws trust from an accepted schema.
   */
  lemma TrustIsKept(groundTruth: map<SchemaKey, int>, key: SchemaKey, strict: bool, min: nat, trusted: SchemaKey)
    requires min > 2 && Accepted(groundTruth, trusted, min) && !Accepted(groundTruth, key, min)
    ensures Accepted(Counted(groundTruth, key, strict), trusted, min)
    ensures Accepted(Cleaned(Counted(groundTruth, key, strict)), trusted, min)
    ensures Cleaned(Counted(groundTruth, key, strict))[trusted] == groundTruth[trusted]
  {
    assert trusted != key;
  }

  class Validator {
    const validatorId: string
    const url: string
    const min: nat
    const maxMessages: nat
    const strict: bool
    const schemaName: string
    var groundTruth: map<SchemaKey, int>
    var identifier: nat
    var nMessages: nat

    predicate Valid()
      reads this
    {
      identifier >= 1 && Bounded(groundTruth, min)
    }

    /**
     * Reads the settings, trusts the schemas fetched from the registry
     * (`registryKeys`, when schema ids were given) and those under the
     * subjects this validator published before, and starts numbering after
     * the highest published subject.
     */
    constructor (validatorId: string, uri: string, topic: string, registryKeys: Option<seq<SchemaKey>>,
                 minThresh: Option<string>, strictSetting: Option<string>, maxMessagesSetting: Option<string>,
                 subjects: seq<string>, schemasOf: string -> seq<SchemaKey>)
      ensures Valid()
      ensures this.min == Setting(minThresh, DEFAULT_MIN)
      ensures this.maxMessages == Setting(maxMessagesSetting, DEFAULT_MAX_MESSAGES)
      ensures this.strict == StrictSetting(strictSetting)
      ensures schemaName == topic + "_auto_"
      ensures var cs := Captures(topic + "_auto_", subjects);
              && groundTruth == Trust(registryKeys.GetOr([]) + FoundKeys(cs, subjects, schemasOf), this.min)
              && identifier == RunningMax(cs) + 1
      ensures nMessages == 0
    {
      this.validatorId := validatorId;
      this.url := uri;
      this.min := Setting(minThresh, DEFAULT_MIN);
      this.maxMessages := Setting(maxMessagesSetting, DEFAULT_MAX_MESSAGES);
      this.strict := StrictSetting(strictSetting);
      this.schemaName := topic + "_auto_";
      groundTruth := map[];
      identifier := 1;
      nMessages := 0;
      new;
      groundTruth := Trust(registryKeys.GetOr([]), min);
      var next := GetUpdatedInfo(subjects, schemasOf);
      identifier := next;
      StartingTrust(registryKeys.GetOr([]), FoundKeys(Captures(schemaName, subjects), subjects, schemasOf), min);
    }

    /**
     * Scans the registry's subjects for those this validator published,
     * trusts their schemas and returns one more than the highest number.
     */
    method GetUpdatedInfo(subjects: seq<string>, schemasOf: string -> seq<SchemaKey>) returns (next: nat)
      modifies this`groundTruth
      ensures var cs := Captures(schemaName, subjects);
              && next == RunningMax(cs) + 1
              && groundTruth == old(groundTruth) + Trust(FoundKeys(cs, subjects, schemasOf), min)
    {
      var maxN := Scan(Captures(schemaName, subjects), subjects, schemasOf);
      next := maxN + 1;
    }

    /** The loop over the subjects, given what each one carries. */
    method Scan(cs: seq<Option<nat>>, subjects: seq<string>, schemasOf: string -> seq<SchemaKey>) returns (maxN: nat)
      requires |cs| == |subjects|
      modifies this`groundTruth
      ensures maxN == RunningMax(cs)
      ensures groundTruth == old(groundTruth) + Trust(FoundKeys(cs, subjects, schemasOf), min)
    {
      maxN := 0;
      var i := 0;
      while i < |subjects|
        invariant 0 <= i <= |subjects|
        invariant maxN == RunningMax(cs[..i])
        invariant groundTruth == old(groundTruth) + Trust(FoundKeys(cs[..i], subjects[..i], schemasOf), min)
      {
        var s := subjects[i];
        ScanStep(cs, subjects, schemasOf, i);
        ScanTrustStep(old(groundTruth), cs, subjects, schemasOf, i, min);
        if cs[i].Some? {
          var n := cs[i].value;
          groundTruth := groundTruth + Trust(schemasOf(s), min);
          maxN := if n > maxN then n else maxN;
        }
        i := i + 1;
      }
      assert subjects[..i] == subjects;
      assert cs[..i] == cs;
    }

    /** Deletes, in place, every schema seen at most twice. */
    method Cleanup()
      modifies this`groundTruth
      ensures groundTruth == Cleaned(old(groundTruth))
    {
      var pending := groundTruth.Keys;
      while pending != {}
        invariant pending <= old(groundTruth).Keys
        invariant groundTruth == map k | k in old(groundTruth) && (k in pending || old(groundTruth)[k] > 2) :: old(groundTruth)[k]
        decreases pending
      {
        var k :| k in pending;
        if groundTruth[k] <= 2 {
          groundTruth := groundTruth - {k};
        }
        pending := pending - {k};
      }
    }

    /**
     * One message's schema: true when it is already trusted; otherwise the
     * sighting is counted (unless strict), a schema reaching the threshold
     * is published under the current identifier (`posted`), and the history
     * is cleaned once the message count reaches its maximum. A publication
     * the registry refuses raises.
     */
    method Validate(key: SchemaKey, registryAccepts: bool) returns (r: Result<bool, string>, posted: Option<string>)
      requires Valid()
      modifies this`groundTruth, this`identifier, this`nMessages
      ensures Valid()
      ensures nMessages == old(nMessages) + 1
      ensures r == Ok(true) <==> Accepted(old(groundTruth), key, min)
      ensures Accepted(old(groundTruth), key, min) ==>
                groundTruth == old(groundTruth) && identifier == old(identifier) && posted.None?
      ensures !Accepted(old(groundTruth), key, min) ==>
                var counted := Counted(old(groundTruth), key, strict);
                var lifted := !strict && counted[key] >= min;
                && posted == (if lifted then Some(schemaName + NatToString(old(identifier))) else None)
                && (lifted && !registryAccepts ==>
                      r == Err("ValueError") && groundTruth == counted && identifier == old(identifier))
                && (!lifted || registryAccepts ==>
                      && r == Ok(false)
                      && identifier == old(identifier) + (if lifted then 1 else 0)
                      && groundTruth == if nMessages >= maxMessages then Cleaned(counted) else counted)
    {
      nMessages := nMessages + 1;
      posted := None;
      if key in groundTruth && groundTruth[key] >= min {
        return Ok(true), None;
      }
      CountedBounded(groundTruth, key, strict, min);
      if !strict {
        groundTruth := groundTruth[key := (if key in groundTruth then groundTruth[key] else 0) + 1];
        if groundTruth[key] >= min {
          posted := Some(schemaName + NatToString(identifier));
          if !registryAccepts {
            return Err("ValueError"), posted;
          }
          identifier := identifier + 1;
        }
      }
      if nMessages >= maxMessages {
        Cleanup();
      }
      r := Ok(false);
    }
  }

  /**
   * A validator restarted on the same topic, once the registry lists a
   * subject it published under identifier n, starts numbering above n.
   */
  lemma RestartSkipsPublished(topic: string, subjects: seq<string>, i: nat, n: nat)
    requires i < |subjects| && subjects[i] == topic + "_auto_" + NatToString(n)
    ensures RunningMax(Captures(topic + "_auto_", subjects)) + 1 > n
  {
    PublishedSubjectNumber(topic, n);
  }
}
